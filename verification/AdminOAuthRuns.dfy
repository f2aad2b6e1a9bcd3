/** What the admin OAuth server guarantees over whole runs: any interleaving of locked sections of
    any number of requests, from the empty store. */
module AdminOAuthRuns {
  import opened Seqs
  import opened AdminOAuth
  import opened AdminOAuthInvariant

  ghost predicate IsRun(ws: seq<World>, es: seq<Event>) {
    && |ws| == |es| + 1
    && ws[0] == Empty
    && forall i :: 0 <= i < |es| ==> Enabled(ws[i], es[i]) && ws[i + 1] == Step(ws[i], es[i]).0
  }

  lemma {:induction false} RunKeepsInv(ws: seq<World>, es: seq<Event>, i: nat)
    requires IsRun(ws, es) && i < |ws|
    ensures Inv(ws[i])
  {
    if i > 0 {
      RunKeepsInv(ws, es, i - 1);
      StepKeepsInv(ws[i - 1], es[i - 1]);
    }
  }

  lemma ExtendsTransitively(u: World, v: World, w: World)
    requires Extends(u, v) && Extends(v, w)
    ensures Extends(u, w)
  {
  }

  lemma {:induction false} RunExtends(ws: seq<World>, es: seq<Event>, i: nat, j: nat)
    requires IsRun(ws, es) && i <= j < |ws|
    ensures Extends(ws[i], ws[j])
    decreases j
  {
    if i < j {
      RunExtends(ws, es, i, j - 1);
      StepExtends(ws, es, j - 1);
      ExtendsTransitively(ws[i], ws[j - 1], ws[j]);
    }
  }

  lemma StepExtends(ws: seq<World>, es: seq<Event>, i: nat)
    requires IsRun(ws, es) && i < |es|
    ensures Extends(ws[i], ws[i + 1])
  {
    RunKeepsInv(ws, es, i);
    StepKeepsInv(ws[i], es[i]);
  }

  // ------------------------------------------------------------------ refresh tokens --

  /** `token` is the current token of this kind of the grant at `i`. */
  ghost predicate Current(w: World, token: string, kind: Kind, i: int) {
    && 0 <= i < |w.grants| && w.grants[i].id in w.generations
    && token in w.ledger && w.ledger[token] == Issue(w.grants[i].id, kind, w.generations[w.grants[i].id])
  }

  /** `token` is the refresh token that the grant at `i` rotated away last. */
  ghost predicate Predecessor(w: World, token: string, i: int) {
    && 0 <= i < |w.grants| && w.grants[i].id in w.generations && w.generations[w.grants[i].id] > 0
    && token in w.ledger && w.ledger[token] == Issue(w.grants[i].id, RefreshToken, w.generations[w.grants[i].id] - 1)
  }

  /** The stored hashes say exactly which place of the history a presented token has. */
  lemma HashesTellPlaces(w: World, token: string, i: nat)
    requires TokenInv(w) && i < |w.grants|
    ensures w.grants[i].accessHash == Sha256(token) <==> Current(w, token, AccessToken, i)
    ensures w.grants[i].refreshHash == Sha256(token) <==> Current(w, token, RefreshToken, i)
    ensures w.grants[i].prevRefreshHash == Sha256(token) <==> Predecessor(w, token, i)
  {
    assert GrantOk(w.grants[i], w.tokens, w.generations);
  }

  /** A token has a place at no more than one grant. */
  lemma OnePlace(w: World, token: string, i: int, j: int)
    requires TokenInv(w)
    requires Current(w, token, AccessToken, i) || Current(w, token, RefreshToken, i) || Predecessor(w, token, i)
    requires Current(w, token, AccessToken, j) || Current(w, token, RefreshToken, j) || Predecessor(w, token, j)
    ensures i == j
    ensures Current(w, token, RefreshToken, i) ==> !Predecessor(w, token, j)
  {
    assert GrantIdOf(w.grants[i]) == GrantIdOf(w.grants[j]);
  }

  ghost predicate Acceptable(g: Grant, clientId: string, now: int) {
    g.refreshExp > now && (clientId == "" || g.clientId == clientId)
  }

  /** The two searches of a refresh find exactly the grant at which the token has its place. */
  lemma SearchesTellPlaces(w: World, token: string, now: int, i: int)
    requires TokenInv(w) && 0 <= i < |w.grants|
    ensures Predecessor(w, token, i) ==> i == FindReused(w.grants, Sha256(token))
    ensures Current(w, token, RefreshToken, i) ==> FindReused(w.grants, Sha256(token)) == |w.grants|
    ensures Current(w, token, RefreshToken, i) && w.grants[i].refreshExp > now ==> i == FindRefresh(w.grants, Sha256(token), now)
    ensures FindReused(w.grants, Sha256(token)) == i ==> Predecessor(w, token, i)
    ensures FindRefresh(w.grants, Sha256(token), now) == i ==> Current(w, token, RefreshToken, i)
  {
    var reused, found := FindReused(w.grants, Sha256(token)), FindRefresh(w.grants, Sha256(token), now);
    HashesTellPlaces(w, token, i);
    if reused < |w.grants| {
      HashesTellPlaces(w, token, reused);
      if Predecessor(w, token, i) || Current(w, token, RefreshToken, i) {
        OnePlace(w, token, i, reused);
      }
    }
    if found < |w.grants| {
      HashesTellPlaces(w, token, found);
      if Current(w, token, RefreshToken, i) {
        OnePlace(w, token, i, found);
      }
    }
  }

  /** Which branch a refresh takes depends only on the place of the presented token. */
  lemma PlaceDecides(w: World, e: Event)
    requires TokenInv(w) && e.Refresh? && Enabled(w, e)
    ensures forall i :: Predecessor(w, e.token, i) ==>
              Step(w, e) == (w.(grants := RemoveAt(w.grants, i)), Refused(InvalidGrant))
    ensures forall i :: Current(w, e.token, RefreshToken, i) && Acceptable(w.grants[i], e.clientId, e.now) && e.isAdmin ==>
              Step(w, e) == (RotatedWorld(w, i, e.access, e.refresh, e.now), TokensIssued(w.grants[i].id, e.access, e.refresh))
    ensures forall i :: Current(w, e.token, RefreshToken, i) && Acceptable(w.grants[i], e.clientId, e.now) && !e.isAdmin ==>
              Step(w, e) == (w.(grants := RemoveAt(w.grants, i)), Refused(InvalidGrant))
    ensures (forall i :: !Predecessor(w, e.token, i)
                         && !(Current(w, e.token, RefreshToken, i) && Acceptable(w.grants[i], e.clientId, e.now)))
            ==> Step(w, e) == (w, Refused(InvalidGrant))
  {
    var reused, found := FindReused(w.grants, Sha256(e.token)), FindRefresh(w.grants, Sha256(e.token), e.now);
    forall i | Predecessor(w, e.token, i) || Current(w, e.token, RefreshToken, i)
      ensures Predecessor(w, e.token, i) ==> i == reused
      ensures Current(w, e.token, RefreshToken, i) ==> reused == |w.grants| && (w.grants[i].refreshExp > e.now ==> i == found)
    {
      SearchesTellPlaces(w, e.token, e.now, i);
    }
    if reused < |w.grants| {
      SearchesTellPlaces(w, e.token, e.now, reused);
    }
    if found < |w.grants| {
      SearchesTellPlaces(w, e.token, e.now, found);
    }
    RefreshCases(w, e);
  }

  /** What a rotation of the grant at `i` does: the two new tokens become its current ones and the presented one its
      predecessor; whose grant it is, when it was made and used, the other rows and everything else stay. */
  ghost predicate Rotates(w: World, v: World, e: Event, i: int)
    requires e.Refresh? && 0 <= i < |w.grants|
  {
    && |v.grants| == |w.grants| && (forall k :: 0 <= k < |w.grants| && k != i ==> v.grants[k] == w.grants[k])
    && v.grants[i].id == w.grants[i].id && v.grants[i].adminId == w.grants[i].adminId
    && v.grants[i].clientId == w.grants[i].clientId && v.grants[i].clientName == w.grants[i].clientName
    && v.grants[i].createdAt == w.grants[i].createdAt && v.grants[i].lastUsedAt == w.grants[i].lastUsedAt
    && Current(v, e.access, AccessToken, i) && Current(v, e.refresh, RefreshToken, i) && Predecessor(v, e.token, i)
    && v.clients == w.clients && v.codes == w.codes && v.threads == w.threads
  }

  lemma RotationRotates(w: World, e: Event, i: nat)
    requires TokenInv(w) && e.Refresh? && Enabled(w, e) && Current(w, e.token, RefreshToken, i)
    ensures Rotates(w, RotatedWorld(w, i, e.access, e.refresh, e.now), e, i)
  {
    var v := RotatedWorld(w, i, e.access, e.refresh, e.now);
    RotatedParts(w, i, e.access, e.refresh, e.now);
    assert v.grants[i] == Rotated(w.grants[i], e.access, e.refresh, e.now);
  }

  /** Section 6 of RFC 6749 and section 4.14.2 of RFC 9700, in full: what a presented refresh token does depends only on
      its place. The current one rotates (or, if the owner is no admin any more, loses the grant), the one just
      before it deletes the grant whatever the other parameters are, and any other changes nothing. */
  lemma RefreshOutcome(w: World, e: Event)
    requires TokenInv(w) && e.Refresh? && Enabled(w, e)
    ensures forall i :: Predecessor(w, e.token, i) ==>
              Step(w, e) == (w.(grants := RemoveAt(w.grants, i)), Refused(InvalidGrant))
    ensures forall i :: Current(w, e.token, RefreshToken, i) && Acceptable(w.grants[i], e.clientId, e.now) && e.isAdmin ==>
              Rotates(w, Step(w, e).0, e, i) && Step(w, e).1 == TokensIssued(w.grants[i].id, e.access, e.refresh)
    ensures forall i :: Current(w, e.token, RefreshToken, i) && Acceptable(w.grants[i], e.clientId, e.now) && !e.isAdmin ==>
              Step(w, e) == (w.(grants := RemoveAt(w.grants, i)), Refused(InvalidGrant))
    ensures (forall i :: !Predecessor(w, e.token, i)
                         && !(Current(w, e.token, RefreshToken, i) && Acceptable(w.grants[i], e.clientId, e.now)))
            ==> Step(w, e) == (w, Refused(InvalidGrant))
  {
    PlaceDecides(w, e);
    forall i | Current(w, e.token, RefreshToken, i) && Acceptable(w.grants[i], e.clientId, e.now) && e.isAdmin
      ensures Rotates(w, Step(w, e).0, e, i) && Step(w, e).1 == TokensIssued(w.grants[i].id, e.access, e.refresh)
    {
      RotationRotates(w, e, i);
    }
  }

  /** A refresh succeeds only with the current refresh token of a live grant, which then is one generation old. */
  lemma RefreshConsumes(w: World, e: Event)
    requires TokenInv(w) && e.Refresh? && Enabled(w, e) && Step(w, e).1.TokensIssued?
    ensures e.token in w.ledger && w.ledger[e.token].kind == RefreshToken
    ensures var f := w.ledger[e.token].family;
            && f in w.generations && w.ledger[e.token].generation == w.generations[f] && Live(w.grants, f)
            && f in Step(w, e).0.generations && Step(w, e).0.generations[f] == w.generations[f] + 1
            && e.isAdmin && Step(w, e).1.family == f
  {
    PlaceDecides(w, e);
    var i :| Current(w, e.token, RefreshToken, i) && Acceptable(w.grants[i], e.clientId, e.now);
    assert w.grants[i].id == w.ledger[e.token].family;
  }

  /** Each refresh token produces new tokens at most once, in every run. */
  lemma RefreshTokenMintsOnce(ws: seq<World>, es: seq<Event>, i: nat, j: nat)
    requires IsRun(ws, es) && i < j < |es|
    requires es[i].Refresh? && es[j].Refresh? && es[i].token == es[j].token
    requires Step(ws[i], es[i]).1.TokensIssued?
    ensures Step(ws[j], es[j]).1 == Refused(InvalidGrant)
  {
    RunKeepsInv(ws, es, i);
    RunKeepsInv(ws, es, j);
    RefreshConsumes(ws[i], es[i]);
    RunExtends(ws, es, i, i + 1);
    RunExtends(ws, es, i + 1, j);
    PlaceDecides(ws[j], es[j]);
    if Step(ws[j], es[j]).1.TokensIssued? {
      RefreshConsumes(ws[j], es[j]);
      assert false;
    }
  }

  /** A token that was issued for this grant. */
  ghost predicate OfFamily(w: World, token: string, family: string) {
    token in w.ledger && w.ledger[token].family == family
  }

  /** No token of a family without a grant is good for anything. */
  lemma DeadFamilyRefuses(w: World, e: Event, family: string)
    requires TokenInv(w) && Enabled(w, e) && !Live(w.grants, family)
    requires (e.Refresh? || e.ReadToken?) && OfFamily(w, e.token, family)
    ensures Step(w, e).1.Refused? && Step(w, e).0 == w
  {
    if e.Refresh? {
      PlaceDecides(w, e);
    } else {
      var i := FindAccess(w.grants, Sha256(e.token), e.now);
      if i < |w.grants| {
        HashesTellPlaces(w, e.token, i);
      }
    }
  }

  lemma RemovalEndsFamily(w: World, i: nat)
    requires TokenInv(w) && i < |w.grants|
    ensures !Live(RemoveAt(w.grants, i), w.grants[i].id)
  {
    var after := RemoveAt(w.grants, i);
    forall m | 0 <= m < |after| ensures after[m].id != w.grants[i].id {
      var n := if m < i then m else m + 1;
      assert after[m] == w.grants[n] && GrantIdOf(w.grants[n]) != GrantIdOf(w.grants[i]);
    }
  }

  /** Presenting the refresh token just rotated away deletes the grant, and from then on no access or
      refresh token of that family succeeds, in every continuation of the run. */
  lemma ReuseEndsFamily(ws: seq<World>, es: seq<Event>, i: nat, k: int, j: nat)
    requires IsRun(ws, es) && i < |es| && es[i].Refresh? && Predecessor(ws[i], es[i].token, k)
    requires i < j < |ws|
    ensures Step(ws[i], es[i]).1 == Refused(InvalidGrant)
    ensures !Live(ws[j].grants, ws[i].grants[k].id)
    ensures j < |es| && (es[j].Refresh? || es[j].ReadToken?) && OfFamily(ws[j], es[j].token, ws[i].grants[k].id)
            ==> Step(ws[j], es[j]).1.Refused?
  {
    var w, v, f := ws[i], ws[i + 1], ws[i].grants[k].id;
    RunKeepsInv(ws, es, i);
    RunKeepsInv(ws, es, j);
    PlaceDecides(w, es[i]);
    assert v.grants == RemoveAt(w.grants, k);
    RemovalEndsFamily(w, k);
    RunExtends(ws, es, i + 1, j);
    if j < |es| && (es[j].Refresh? || es[j].ReadToken?) && OfFamily(ws[j], es[j].token, f) {
      DeadFamilyRefuses(ws[j], es[j], f);
    }
  }

  /** Presenting an ancestor two or more rotations old, an access token, or anything never issued
      fails and changes nothing. */
  lemma AncestorIsInert(w: World, e: Event)
    requires TokenInv(w) && e.Refresh? && Enabled(w, e)
    requires e.token in w.ledger && w.ledger[e.token].kind == RefreshToken ==>
               w.ledger[e.token].generation + 2 <= w.generations[w.ledger[e.token].family]
    ensures Step(w, e) == (w, Refused(InvalidGrant))
  {
    PlaceDecides(w, e);
  }

  /** Reuse detection reaches back one rotation: of the refresh tokens a live grant has rotated away, exactly the last
      one deletes the grant when it is presented. */
  lemma ReuseRevokesExactly(w: World, e: Event, i: nat)
    requires TokenInv(w) && e.Refresh? && Enabled(w, e) && i < |w.grants|
    requires OfFamily(w, e.token, w.grants[i].id) && w.ledger[e.token].kind == RefreshToken
    requires w.ledger[e.token].generation < w.generations[w.grants[i].id]
    ensures !Live(Step(w, e).0.grants, w.grants[i].id)
       <==> w.ledger[e.token].generation + 1 == w.generations[w.grants[i].id]
  {
    PlaceDecides(w, e);
    if w.ledger[e.token].generation + 1 == w.generations[w.grants[i].id] {
      assert Predecessor(w, e.token, i);
      RemovalEndsFamily(w, i);
    } else {
      AncestorIsInert(w, e);
    }
  }

  // ------------------------------------------------------------------- access tokens --

  /** A bearer is admitted exactly with the current, unexpired access token of a stored grant, and gets that grant;
      then, if its last-used stamp is five minutes old, the reading waits to renew it. */
  lemma AdmissionIsExact(w: World, e: Event)
    requires TokenInv(w) && e.ReadToken? && Enabled(w, e)
    ensures forall i :: Current(w, e.token, AccessToken, i) && w.grants[i].accessExp > e.now
              ==> Step(w, e).1 == Admitted(w.grants[i])
    ensures Step(w, e).1.Admitted? ==>
              exists i :: Current(w, e.token, AccessToken, i) && w.grants[i].accessExp > e.now && Step(w, e).1.grant == w.grants[i]
    ensures Step(w, e).0 == if Step(w, e).1.Admitted? && e.now - Step(w, e).1.grant.lastUsedAt >= 300
                            then w.(threads := w.threads[e.tid := Touching(Step(w, e).1.grant.id, e.now)]) else w
  {
    var found := FindAccess(w.grants, Sha256(e.token), e.now);
    if found < |w.grants| {
      HashesTellPlaces(w, e.token, found);
    }
    forall i | Current(w, e.token, AccessToken, i) && w.grants[i].accessExp > e.now
      ensures Step(w, e).1 == Admitted(w.grants[i])
    {
      HashesTellPlaces(w, e.token, i);
      OnePlace(w, e.token, i, found);
      assert e.token in w.ledger && w.ledger[e.token].kind == AccessToken;
    }
  }

  /** The late write of the last-used stamp puts the time of the reading into the rows of that grant; every row keeps its
      place and all its other fields. */
  lemma TouchChangesStampOnly(w: World, tid: nat)
    requires TokenInv(w) && Enabled(w, TouchGrant(tid))
    ensures var (after, Touching(id, now)) := (Step(w, TouchGrant(tid)).0.grants, w.threads[tid]);
            && |after| == |w.grants|
            && forall i :: 0 <= i < |after| ==>
                 after[i] == w.grants[i].(lastUsedAt := if w.grants[i].id == id then now else w.grants[i].lastUsedAt)
    ensures var Touching(id, _) := w.threads[tid];
            !Live(w.grants, id) ==> Step(w, TouchGrant(tid)).0.grants == w.grants
  {
  }

  /** A grant revoked while an admitted request still waits to write its stamp stays revoked. */
  lemma LateTouchRevivesNothing(ws: seq<World>, es: seq<Event>, i: nat, j: nat, family: string)
    requires IsRun(ws, es) && i <= j < |es| && es[j].TouchGrant?
    requires family in ws[i].generations && !Live(ws[i].grants, family)
    requires ws[j].threads[es[j].tid].grantId == family
    ensures ws[j + 1].grants == ws[j].grants
  {
    RunKeepsInv(ws, es, j);
    RunExtends(ws, es, i, j);
    TouchChangesStampOnly(ws[j], es[j].tid);
  }

  // ---------------------------------------------------------------------- revocation --

  /** Section 2 of RFC 7009: revoking a current token removes exactly its grant; any other text changes nothing. */
  lemma RevokeIsExact(w: World, token: string)
    requires TokenInv(w)
    ensures var after := Step(w, Revoke(token)).0.grants;
            && (forall i :: Current(w, token, AccessToken, i) || Current(w, token, RefreshToken, i)
                  ==> after == RemoveAt(w.grants, i))
            && ((forall i :: !Current(w, token, AccessToken, i) && !Current(w, token, RefreshToken, i))
                  ==> after == w.grants)
  {
    var stays := (g: Grant) => g.accessHash != Sha256(token) && g.refreshHash != Sha256(token);
    RevokeIsFilter(w, token);
    forall i | 0 <= i < |w.grants|
      ensures !stays(w.grants[i]) <==> Current(w, token, AccessToken, i) || Current(w, token, RefreshToken, i)
    {
      HashesTellPlaces(w, token, i);
    }
    forall i | Current(w, token, AccessToken, i) || Current(w, token, RefreshToken, i)
      ensures Filter(stays, w.grants) == RemoveAt(w.grants, i)
    {
      forall k | 0 <= k < |w.grants| && k != i ensures stays(w.grants[k]) {
        if !stays(w.grants[k]) {
          OnePlace(w, token, i, k);
        }
      }
      FilterAllButOne(stays, w.grants, i);
    }
    if forall i :: !Current(w, token, AccessToken, i) && !Current(w, token, RefreshToken, i) {
      FilterAll(stays, w.grants);
    }
  }

  /** An admin revokes exactly his own grant with this id, or is told there is none and nothing changes. */
  lemma RevokeGrantIsExact(w: World, adminId: string, grantId: string)
    requires TokenInv(w)
    ensures forall i :: 0 <= i < |w.grants| && w.grants[i].id == grantId && w.grants[i].adminId == adminId
              ==> Step(w, RevokeGrant(adminId, grantId)) == (w.(grants := RemoveAt(w.grants, i)), Done)
    ensures (forall i :: 0 <= i < |w.grants| ==> !(w.grants[i].id == grantId && w.grants[i].adminId == adminId))
              ==> Step(w, RevokeGrant(adminId, grantId)) == (w, Refused(NoSuchGrant))
  {
    var stays := (g: Grant) => !(g.id == grantId && g.adminId == adminId);
    assert WithoutGrant(w.grants, adminId, grantId) == Filter(stays, w.grants);
    forall i | 0 <= i < |w.grants| && w.grants[i].id == grantId && w.grants[i].adminId == adminId
      ensures Filter(stays, w.grants) == RemoveAt(w.grants, i)
    {
      assert forall k :: 0 <= k < |w.grants| && k != i ==> GrantIdOf(w.grants[k]) != GrantIdOf(w.grants[i]);
      FilterAllButOne(stays, w.grants, i);
    }
    if forall i :: 0 <= i < |w.grants| ==> stays(w.grants[i]) {
      FilterAll(stays, w.grants);
    }
  }

  // ------------------------------------------------------------------------ the store --

  /** In every reachable store: at most ten grants per admin and 200 in all, and no hash stands twice. */
  lemma StoreIsBounded(ws: seq<World>, es: seq<Event>, k: nat, adminId: string)
    requires IsRun(ws, es) && k < |ws|
    ensures |Mine(ws[k].grants, adminId)| <= 10 && |ws[k].grants| <= 200
    ensures forall i, j :: 0 <= i < |ws[k].grants| && 0 <= j < |ws[k].grants| ==>
              && ws[k].grants[i].accessHash != ws[k].grants[j].refreshHash
              && ws[k].grants[i].refreshHash != ws[k].grants[j].prevRefreshHash
              && (i != j ==> && ws[k].grants[i].accessHash != ws[k].grants[j].accessHash
                             && ws[k].grants[i].refreshHash != ws[k].grants[j].refreshHash)
  {
    var w := ws[k];
    RunKeepsInv(ws, es, k);
    forall i, j | 0 <= i < |w.grants| && 0 <= j < |w.grants|
      ensures w.grants[i].accessHash != w.grants[j].refreshHash && w.grants[i].refreshHash != w.grants[j].prevRefreshHash
      ensures i != j ==> w.grants[i].accessHash != w.grants[j].accessHash && w.grants[i].refreshHash != w.grants[j].refreshHash
    {
      assert GrantOk(w.grants[i], w.tokens, w.generations) && GrantOk(w.grants[j], w.tokens, w.generations);
      assert i != j ==> GrantIdOf(w.grants[i]) != GrantIdOf(w.grants[j]);
    }
  }

  // ---------------------------------------------------------------- authorization codes --

  /** Section 4.1.2 of RFC 6749: any presentation of an issued code consumes it, even when the client, redirect,
      verifier or time is wrong; every later presentation is refused. */
  lemma CodeIsSingleUse(ws: seq<World>, es: seq<Event>, i: nat, j: nat)
    requires IsRun(ws, es) && i < j < |es|
    requires es[i].TakeCode? && es[j].TakeCode? && es[i].code == es[j].code && es[i].code in ws[i].consents
    ensures Step(ws[j], es[j]).1 == Refused(InvalidGrant)
  {
    PresentedCodeIsSpent(ws[i], es[i]);
    RunKeepsInv(ws, es, j);
    RunExtends(ws, es, i + 1, j);
    SpentCodeIsRefused(ws[j], es[j]);
  }

  lemma PresentedCodeIsSpent(w: World, e: Event)
    requires e.TakeCode? && Enabled(w, e) && e.code in w.consents
    ensures e.code in Step(w, e).0.spent
  {
  }

  lemma SpentCodeIsRefused(w: World, e: Event)
    requires CodesOk(w.codes, w.consents, w.spent) && e.TakeCode? && Enabled(w, e) && e.code in w.spent
    ensures Step(w, e).1 == Refused(InvalidGrant)
  {
    forall k | 0 <= k < |w.codes| ensures w.codes[k].code != Sha256(e.code) {
      assert CodeOk(w.codes[k], w.consents);
    }
  }

  /** The step at which a code was issued, which is unique. */
  ghost predicate IssuedAt(ws: seq<World>, es: seq<Event>, i: int, code: string)
    requires IsRun(ws, es)
  {
    && 0 <= i < |es| && es[i].StoreCode? && es[i].code == code && Step(ws[i], es[i]).1 == CodeIssued(code)
  }

  /** Only a presented code starts an exchange, only a stored grant gets an origin, only a stored code a consent. */
  ghost predicate Sourced(w: World, v: World, e: Event) {
    && (e.TakeCode? || forall t :: t in v.threads && v.threads[t].Exchanging? ==> (t in w.threads && w.threads[t] == v.threads[t]))
    && (v.origins == w.origins || (e.StoreGrant? && e.isAdmin))
    && (v.consents == w.consents || e.StoreCode?)
  }

  lemma RevocationIsSourced(w: World, e: Event)
    requires (e.Revoke? || e.RevokeGrant?) && Enabled(w, e)
    ensures Sourced(w, Step(w, e).0, e)
  {
    if e.Revoke? {
      RevokeIsFilter(w, e.token);
    } else {
      RevokeGrantIsFilter(w, e.adminId, e.grantId);
    }
  }

  lemma CodeEventIsSourced(w: World, e: Event)
    requires (e.StoreCode? || e.TakeCode? || e.TouchGrant?) && Enabled(w, e) && |w.codes| <= KEEP_ROWS
    ensures Sourced(w, Step(w, e).0, e)
  {
    if e.TakeCode? {
      TakeCodeCases(w, e);
    }
  }

  lemma OtherEventIsSourced(w: World, e: Event)
    requires (e.Register? || e.CheckConsent? || e.ReadToken? || e.StoreGrant?) && Enabled(w, e)
    ensures Sourced(w, Step(w, e).0, e)
  {
    if e.StoreGrant? {
      StoreGrantCases(w, e);
    } else {
      ReadersChangeNoRows(w, e);
    }
  }

  lemma StepIsSourced(w: World, e: Event)
    requires Inv(w) && Enabled(w, e)
    ensures Sourced(w, Step(w, e).0, e)
  {
    if e.Refresh? {
      RefreshTouchesGrantsOnly(w, e.token, e.clientId, e.isAdmin, e.access, e.refresh, e.now);
    } else if e.Revoke? || e.RevokeGrant? {
      RevocationIsSourced(w, e);
    } else if e.StoreCode? || e.TakeCode? || e.TouchGrant? {
      CodeEventIsSourced(w, e);
    } else {
      OtherEventIsSourced(w, e);
    }
  }

  lemma IssuedByStoring(w: World, e: Event, code: string)
    requires Inv(w) && Enabled(w, e) && code !in w.consents && code in Step(w, e).0.consents
    ensures e.StoreCode? && e.login.Some? && e.code == code && Step(w, e).1 == CodeIssued(code)
    ensures var form := w.threads[e.tid].form;
            Step(w, e).0.consents[code]
            == Consent(form.clientId, form.redirect.text, form.challenge, e.login.value, e.now)
  {
    StepIsSourced(w, e);
  }

  lemma {:induction false} ConsentHasIssue(ws: seq<World>, es: seq<Event>, k: nat, code: string) returns (i: nat)
    requires IsRun(ws, es) && k < |ws| && code in ws[k].consents
    ensures i < k && IssuedAt(ws, es, i, code) && es[i].login.Some?
    ensures var form := ws[i].threads[es[i].tid].form;
            ws[k].consents[code]
            == Consent(form.clientId, form.redirect.text, form.challenge, es[i].login.value, es[i].now)
  {
    i := k - 1;
    if code in ws[i].consents {
      RunExtends(ws, es, i, k);
      i := ConsentHasIssue(ws, es, i, code);
    } else {
      RunKeepsInv(ws, es, i);
      IssuedByStoring(ws[i], es[i], code);
    }
  }

  lemma CodeIsIssuedOnce(ws: seq<World>, es: seq<Event>, i: nat, j: nat, code: string)
    requires IsRun(ws, es) && i < j && IssuedAt(ws, es, i, code)
    ensures !IssuedAt(ws, es, j, code)
  {
    if j < |es| {
      RunExtends(ws, es, i + 1, j);
    }
  }

  /** Step `j` took the code: it passed every check of an exchange. */
  ghost predicate TakenAt(ws: seq<World>, es: seq<Event>, j: int, row: CodeRow, verifier: string, now: int)
    requires IsRun(ws, es)
  {
    && 0 <= j < |es| && es[j].TakeCode? && Step(ws[j], es[j]).1 == CodeAccepted
    && row.code == Sha256(es[j].code) && row.clientId == es[j].clientId && row.redirectUri == es[j].redirectUri
    && verifier == es[j].verifier && now == es[j].now
  }

  /** Step `j` accepted the code of this exchange. */
  ghost predicate AcceptedAt(ws: seq<World>, es: seq<Event>, j: int, x: Exchange)
    requires IsRun(ws, es)
  {
    && 0 <= j < |es| && es[j].TakeCode? && Step(ws[j], es[j]).1 == CodeAccepted
    && x == Exchange(es[j].code, es[j].verifier, es[j].now)
  }

  /** The exchange that a thread starts to wait with is the one that was just accepted. */
  lemma StartedByTaking(w: World, e: Event, tid: nat)
    requires Inv(w) && Enabled(w, e) && tid in Step(w, e).0.threads && Step(w, e).0.threads[tid].Exchanging?
    requires tid !in w.threads || w.threads[tid] != Step(w, e).0.threads[tid]
    ensures e.TakeCode? && Step(w, e).1 == CodeAccepted
    ensures var Exchanging(row, verifier, now) := Step(w, e).0.threads[tid];
            && row.code == Sha256(e.code) && row.clientId == e.clientId && row.redirectUri == e.redirectUri
            && verifier == e.verifier && now == e.now
  {
    StepIsSourced(w, e);
  }

  lemma {:induction false} ExchangeHasTaking(ws: seq<World>, es: seq<Event>, k: nat, tid: nat) returns (j: nat)
    requires IsRun(ws, es) && k < |ws| && tid in ws[k].threads && ws[k].threads[tid].Exchanging?
    ensures var Exchanging(row, verifier, now) := ws[k].threads[tid];
            j < k && TakenAt(ws, es, j, row, verifier, now)
  {
    j := k - 1;
    if tid in ws[j].threads && ws[j].threads[tid] == ws[k].threads[tid] {
      j := ExchangeHasTaking(ws, es, j, tid);
    } else {
      RunKeepsInv(ws, es, j);
      StartedByTaking(ws[j], es[j], tid);
    }
  }

  /** Where a grant comes from: the exchange that its origin records was really made. */
  lemma OriginStored(w: World, e: Event, family: string)
    requires Inv(w) && Enabled(w, e) && family !in w.origins && family in Step(w, e).0.origins
    ensures e.StoreGrant? && e.tid in w.threads && w.threads[e.tid].Exchanging?
    ensures var Exchanging(row, verifier, now) := w.threads[e.tid];
            row.code.Sha256? && Step(w, e).0.origins[family] == Exchange(row.code.text, verifier, now)
  {
    StepIsSourced(w, e);
    StoreGrantCases(w, e);
  }

  lemma {:induction false} OriginHasTaking(ws: seq<World>, es: seq<Event>, k: nat, family: string) returns (j: nat)
    requires IsRun(ws, es) && k < |ws| && family in ws[k].origins
    ensures j < k && AcceptedAt(ws, es, j, ws[k].origins[family])
  {
    var m := k - 1;
    if family in ws[m].origins {
      j := OriginHasTaking(ws, es, m, family);
      RunExtends(ws, es, m, k);
    } else {
      RunKeepsInv(ws, es, m);
      OriginStored(ws[m], es[m], family);
      j := ExchangeHasTaking(ws, es, m, es[m].tid);
    }
  }

  lemma TakenCodeHasConsent(w: World, e: Event)
    requires CodeInv(w) && e.TakeCode? && Enabled(w, e) && Step(w, e).1 == CodeAccepted
    ensures e.code in w.consents
    ensures e.clientId == w.consents[e.code].clientId && e.redirectUri == w.consents[e.code].redirectUri
  {
    var i := FindCode(w.codes, Sha256(e.code), e.now);
    assert CodeOk(w.codes[i], w.consents);
  }

  /** Every grant of every reachable store traces back to one consent and one exchange: step `i` issued the
      code after an admin login, step `j` presented it with the same client and redirect URI, with
      a verifier whose S256 image is the consent's challenge (section 4.6 of RFC 7636), less than five minutes later. */
  lemma GrantTracesToConsent(ws: seq<World>, es: seq<Event>, k: nat, g: Grant) returns (i: nat, j: nat)
    requires IsRun(ws, es) && k < |ws| && g in ws[k].grants
    ensures i < j < k && es[j].TakeCode? && Step(ws[j], es[j]).1 == CodeAccepted
    ensures IssuedAt(ws, es, i, es[j].code) && es[i].login == Some(g.adminId)
    ensures es[j].now - es[i].now < 300
    ensures var form := ws[i].threads[es[i].tid].form;
            && g.clientId == form.clientId == es[j].clientId
            && form.redirect.text == es[j].redirectUri
            && form.challenge == S256(es[j].verifier)
  {
    var w := ws[k];
    RunKeepsInv(ws, es, k);
    var n :| 0 <= n < |w.grants| && w.grants[n] == g;
    assert Bound(w.grants[n], w.origins, w.consents);
    j := OriginHasTaking(ws, es, k, g.id);
    RunKeepsInv(ws, es, j);
    TakenCodeHasConsent(ws[j], es[j]);
    i := ConsentHasIssue(ws, es, j, es[j].code);
    RunExtends(ws, es, j, k);
    assert OriginOk(g.id, w.origins[g.id], w.consents, w.redeemed);
  }

  /** One code yields at most one grant. */
  lemma OneGrantPerCode(ws: seq<World>, es: seq<Event>, k: nat, f: string, g: string)
    requires IsRun(ws, es) && k < |ws| && f in ws[k].origins && g in ws[k].origins
    requires ws[k].origins[f].code == ws[k].origins[g].code
    ensures f == g
  {
    RunKeepsInv(ws, es, k);
    assert OriginOk(f, ws[k].origins[f], ws[k].consents, ws[k].redeemed);
    assert OriginOk(g, ws[k].origins[g], ws[k].consents, ws[k].redeemed);
  }
}
