/** Authorization codes and stored grants of the admin OAuth server: when a code is accepted, and when codes and grants
    go. */
module AdminOAuthCodes {
  import opened Seqs
  import opened AdminOAuth
  import opened AdminOAuthInvariant
  import opened AdminOAuthRuns

  // ------------------------------------------------------------------ accepting a code --

  /** A row of this code is stored. */
  ghost predicate Held(codes: seq<CodeRow>, code: string) {
    exists n :: 0 <= n < |codes| && codes[n].code == Sha256(code)
  }

  /** The presentation agrees with the consent: client, redirect URI and verifier (section 4.6 of RFC 7636). */
  ghost predicate Agrees(c: Consent, e: Event)
    requires e.TakeCode?
  {
    && e.clientId == c.clientId && e.redirectUri == c.redirectUri && S256(e.verifier) == c.challenge
    && e.verifier != "" && forall x :: x in e.verifier ==> x < 128 as char
  }

  lemma AcceptanceIsExact(w: World, e: Event)
    requires CodesOk(w.codes, w.consents, w.spent) && e.TakeCode? && Enabled(w, e)
    ensures Step(w, e).1 == CodeAccepted
       <==> Held(w.codes, e.code) && e.code in w.consents && e.now < w.consents[e.code].at + 300 && Agrees(w.consents[e.code], e)
    ensures Step(w, e).1 != CodeAccepted ==> Step(w, e).1 == Refused(InvalidGrant)
  {
    var i := FindCode(w.codes, Sha256(e.code), e.now);
    forall n | 0 <= n < |w.codes| && w.codes[n].code == Sha256(e.code)
      ensures e.code in w.consents && w.codes[n].exp == w.consents[e.code].at + 300
      ensures i < |w.codes| ==> i == n
    {
      assert CodeOk(w.codes[n], w.consents);
      assert i < |w.codes| ==> CodeOf(w.codes[i]) == CodeOf(w.codes[n]);
    }
    assert i < |w.codes| ==> CodeOk(w.codes[i], w.consents);
  }

  /** The consent that step `i` made a code of. */
  ghost predicate ConsentAt(ws: seq<World>, es: seq<Event>, i: int, code: string, c: Consent)
    requires IsRun(ws, es)
  {
    && IssuedAt(ws, es, i, code) && es[i].login.Some? && es[i].tid in ws[i].threads && ws[i].threads[es[i].tid].Consenting?
    && var form := ws[i].threads[es[i].tid].form;
       c == Consent(form.clientId, form.redirect.text, form.challenge, es[i].login.value, es[i].now)
  }

  /** In every run a code is accepted exactly while it is stored, less than five minutes after the step that issued it,
      and with what the form of that step names. */
  lemma CodeIsAcceptedExactly(ws: seq<World>, es: seq<Event>, k: nat)
    requires IsRun(ws, es) && k < |es| && es[k].TakeCode?
    ensures Step(ws[k], es[k]).1 == CodeAccepted
       <==> Held(ws[k].codes, es[k].code)
            && exists i, c :: i < k && ConsentAt(ws, es, i, es[k].code, c) && es[k].now < es[i].now + 300 && Agrees(c, es[k])
    ensures Step(ws[k], es[k]).1 != CodeAccepted ==> Step(ws[k], es[k]).1 == Refused(InvalidGrant)
  {
    var w, e := ws[k], es[k];
    RunKeepsInv(ws, es, k);
    AcceptanceIsExact(w, e);
    if e.code in w.consents {
      var i := ConsentHasIssue(ws, es, k, e.code);
      assert ConsentAt(ws, es, i, e.code, w.consents[e.code]);
      forall m, c | m < k && ConsentAt(ws, es, m, e.code, c) ensures m == i && c == w.consents[e.code] {
        if m < i { CodeIsIssuedOnce(ws, es, m, i, e.code); }
        if i < m { CodeIsIssuedOnce(ws, es, i, m, e.code); }
      }
    } else {
      HeldHasConsent(w, e.code);
    }
  }

  lemma HeldHasConsent(w: World, code: string)
    requires CodesOk(w.codes, w.consents, w.spent) && code !in w.consents
    ensures !Held(w.codes, code)
  {
    forall n | 0 <= n < |w.codes| ensures w.codes[n].code != Sha256(code) {
      assert CodeOk(w.codes[n], w.consents);
    }
  }

  // ------------------------------------------------------------------ how long a code is stored --

  /** All stored codes were issued less than five minutes ago. */
  ghost predicate AllFresh(w: World, now: int) {
    forall c :: Held(w.codes, c) ==> c in w.consents && now < w.consents[c].at + 300
  }

  /** The steps that remove a code: it is presented, or a section that writes the codes comes five minutes after its
      issue, or one more is stored while there are 200 and none is that old, and it is the oldest. */
  ghost predicate CodeEnds(w: World, e: Event, code: string)
    requires code in w.consents
  {
    || (e.TakeCode? && (e.code == code || w.consents[code].at + 300 <= e.now))
    || (&& e.StoreCode? && e.login.Some?
        && (|| w.consents[code].at + 300 <= e.now
            || (|w.codes| == 200 && w.codes[0].code == Sha256(code) && AllFresh(w, e.now))))
  }

  lemma {:induction false} FullFilter<T(!new)>(f: T -> bool, xs: seq<T>)
    requires |Filter(f, xs)| == |xs|
    ensures Filter(f, xs) == xs && forall x :: x in xs ==> f(x)
  {
    if xs != [] {
      FullFilter(f, xs[1..]);
    }
  }

  lemma OthersKeepCodes(w: World, e: Event)
    requires Enabled(w, e) && |w.grants| <= KEEP_ROWS && !e.TakeCode? && !(e.StoreCode? && e.login.Some?)
    ensures Step(w, e).0.codes == w.codes
  {
    match e
    case StoreGrant(_, _, _, _, _) => StoreGrantCases(w, e);
    case Refresh(token, clientId, isAdmin, access, refresh, now) =>
      RefreshTouchesGrantsOnly(w, token, clientId, isAdmin, access, refresh, now);
    case Revoke(token) => RevokeIsFilter(w, token);
    case RevokeGrant(adminId, grantId) => RevokeGrantIsFilter(w, adminId, grantId);
    case TouchGrant(tid) => TouchCases(w, tid);
    case StoreCode(_, _, _, _) =>
    case Register(_, _, _, _) => ReadersChangeNoRows(w, e);
    case CheckConsent(_, _) => ReadersChangeNoRows(w, e);
    case ReadToken(_, _, _) => ReadersChangeNoRows(w, e);
  }

  lemma HeldRow(w: World, code: string) returns (n: nat)
    requires CodesOk(w.codes, w.consents, w.spent) && Held(w.codes, code)
    ensures n < |w.codes| && w.codes[n].code == Sha256(code)
    ensures code in w.consents && w.codes[n].exp == w.consents[code].at + 300
    ensures forall m :: 0 <= m < |w.codes| && w.codes[m].code == Sha256(code) ==> m == n
  {
    n :| 0 <= n < |w.codes| && w.codes[n].code == Sha256(code);
    assert CodeOk(w.codes[n], w.consents);
    forall m | 0 <= m < |w.codes| && w.codes[m].code == Sha256(code) ensures m == n {
      assert CodeOf(w.codes[m]) == CodeOf(w.codes[n]);
    }
  }

  /** A row stays among the unexpired exactly while it has time left. */
  lemma HeldAmongUnexpired(codes: seq<CodeRow>, now: int, n: nat)
    requires n < |codes| && codes[n].code.Sha256? && forall m :: 0 <= m < |codes| && codes[m].code == codes[n].code ==> m == n
    ensures Held(Unexpired(codes, now), codes[n].code.text) <==> now < codes[n].exp
  {
    var kept := Unexpired(codes, now);
    FilterMembers((r: CodeRow) => r.exp > now, codes);
    if now < codes[n].exp {
      assert codes[n] in kept;
    }
    forall m | 0 <= m < |kept| && kept[m].code == codes[n].code ensures now < codes[n].exp {
      assert kept[m] in kept;
      var k :| 0 <= k < |codes| && codes[k] == kept[m];
    }
  }

  lemma TakingEnds(w: World, e: Event, code: string)
    requires Inv(w) && e.TakeCode? && Enabled(w, e) && Held(w.codes, code)
    ensures code in w.consents && (!Held(Step(w, e).0.codes, code) <==> CodeEnds(w, e, code))
  {
    var n := HeldRow(w, code);
    var i := FindCode(w.codes, Sha256(e.code), e.now);
    var rest := Rest(w.codes, i);
    TakeCodeCases(w, e);
    TakenCodeKeepsCodes(w.codes, e.code, w.consents, w.spent, e.now);
    if e.code != code {
      var m := if n < i then n else if i < |w.codes| then n - 1 else n;
      assert rest[m] == w.codes[n];
      forall k | 0 <= k < |rest| && rest[k].code == Sha256(code) ensures k == m {
        assert rest[k] == w.codes[if k < i then k else k + 1];
      }
      HeldAmongUnexpired(rest, e.now, m);
    }
  }

  lemma StoringEnds(w: World, e: Event, code: string)
    requires Inv(w) && e.StoreCode? && e.login.Some? && Enabled(w, e) && Held(w.codes, code)
    ensures code in w.consents && (!Held(Step(w, e).0.codes, code) <==> CodeEnds(w, e, code))
  {
    var n := HeldRow(w, code);
    var after := Step(w, e).0.codes;
    var row := after[|after| - 1];
    assert row.code == Sha256(e.code) && after == Last(Unexpired(w.codes, e.now) + [row], KEEP_ROWS);
    StoredAfter(w, e.now, row, code, n);
  }

  lemma StoredAfter(w: World, now: int, row: CodeRow, code: string, n: nat)
    requires CodesOk(w.codes, w.consents, w.spent) && n < |w.codes| && w.codes[n].code == Sha256(code) != row.code
    requires code in w.consents && w.codes[n].exp == w.consents[code].at + 300
    requires forall m :: 0 <= m < |w.codes| && w.codes[m].code == Sha256(code) ==> m == n
    ensures Held(Last(Unexpired(w.codes, now) + [row], KEEP_ROWS), code)
       <==> now < w.consents[code].at + 300 && !(|w.codes| == 200 && n == 0 && AllFresh(w, now))
  {
    var kept := Unexpired(w.codes, now);
    HeldAmongUnexpired(w.codes, now, n);
    if |kept| < KEEP_ROWS {
      SurvivesAppend(kept, row, code);
      if AllFresh(w, now) { AllStay(w, now); }
    } else {
      AllKept(w, now);
      FirstIsPushed(w.codes, row, code, n);
      assert Last(kept + [row], KEEP_ROWS) == w.codes[1..] + [row];
    }
  }

  lemma SurvivesAppend(kept: seq<CodeRow>, row: CodeRow, code: string)
    requires row.code != Sha256(code)
    ensures Held(kept + [row], code) <==> Held(kept, code)
  {
    if Held(kept, code) {
      var n :| 0 <= n < |kept| && kept[n].code == Sha256(code);
      assert (kept + [row])[n] == kept[n];
    }
  }

  lemma FirstIsPushed(codes: seq<CodeRow>, row: CodeRow, code: string, n: nat)
    requires n < |codes| && codes[n].code == Sha256(code) != row.code
    requires forall m :: 0 <= m < |codes| && codes[m].code == Sha256(code) ==> m == n
    ensures Held(codes[1..] + [row], code) <==> n != 0
  {
    var after := codes[1..] + [row];
    if n != 0 { assert after[n - 1] == codes[n]; }
    assert forall m :: 0 <= m < |after| && after[m].code == Sha256(code) ==> codes[m + 1] == after[m];
  }

  lemma AllStay(w: World, now: int)
    requires CodesOk(w.codes, w.consents, w.spent) && AllFresh(w, now)
    ensures Unexpired(w.codes, now) == w.codes
  {
    forall r | r in w.codes ensures r.exp > now {
      var n :| 0 <= n < |w.codes| && w.codes[n] == r;
      assert CodeOk(w.codes[n], w.consents) && Held(w.codes, r.code.text);
    }
    FilterAll((r: CodeRow) => r.exp > now, w.codes);
  }

  lemma AllKept(w: World, now: int)
    requires CodesOk(w.codes, w.consents, w.spent) && |Unexpired(w.codes, now)| >= KEEP_ROWS
    ensures Unexpired(w.codes, now) == w.codes && |w.codes| == 200 && AllFresh(w, now)
  {
    FullFilter((r: CodeRow) => r.exp > now, w.codes);
    forall c | Held(w.codes, c) ensures c in w.consents && now < w.consents[c].at + 300 {
      var n := HeldRow(w, c);
      assert w.codes[n] in w.codes;
    }
  }

  /** A stored code goes exactly at these steps. */
  lemma CodeEndsExactly(w: World, e: Event, code: string)
    requires Inv(w) && Enabled(w, e) && Held(w.codes, code)
    ensures code in w.consents && (!Held(Step(w, e).0.codes, code) <==> CodeEnds(w, e, code))
  {
    if e.TakeCode? {
      TakingEnds(w, e, code);
    } else if e.StoreCode? && e.login.Some? {
      StoringEnds(w, e, code);
    } else {
      var n := HeldRow(w, code);
      OthersKeepCodes(w, e);
    }
  }

  // ------------------------------------------------------------------ how long a grant is stored --

  /** The steps that remove the grant at `n`: its predecessor token is presented, or its current one while its owner is
      no admin; it is revoked; its owner gets a grant while it is older than nine others of his; or the store is full,
      the new grant evicts none of its owner's, and it is the oldest. */
  ghost predicate GrantEnds(w: World, e: Event, n: nat)
    requires Enabled(w, e) && n < |w.grants|
  {
    match e
    case Refresh(token, clientId, isAdmin, _, _, now) =>
      || Predecessor(w, token, n)
      || (Current(w, token, RefreshToken, n) && Acceptable(w.grants[n], clientId, now) && !isAdmin)
    case Revoke(token) => Current(w, token, AccessToken, n) || Current(w, token, RefreshToken, n)
    case RevokeGrant(adminId, grantId) => w.grants[n].id == grantId && w.grants[n].adminId == adminId
    case StoreGrant(tid, isAdmin, _, _, _) =>
      && isAdmin
      && var a := w.threads[tid].row.adminId;
         || (w.grants[n].adminId == a && |Mine(w.grants[n..], a)| >= 10)
         || (n == 0 && |w.grants| == 200 && |Mine(w.grants, a)| < 10)
    case _ => false
  }

  /** An admin's grant is among the surplus ones exactly if nine newer ones of his follow it. */
  lemma SurplusIs(grants: seq<Grant>, n: nat)
    requires Unique(GrantIdOf, grants) && n < |grants|
    ensures forall a :: grants[n].id in Overflow(grants, a)
              <==> grants[n].adminId == a && |Mine(grants[n..], a)| >= 10
  {
    forall a ensures grants[n].id in Overflow(grants, a) <==> grants[n].adminId == a && |Mine(grants[n..], a)| >= 10 {
      var isMine := (g: Grant) => g.adminId == a;
      var mine, p := Filter(isMine, grants), |Filter(isMine, grants[..n])|;
      assert grants == grants[..n] + grants[n..];
      FilterConcat(isMine, grants[..n], grants[n..]);
      FilterMembers(isMine, grants);
      UniqueFilter(GrantIdOf, isMine, grants);
      assert Mine(grants, a) == mine && Mine(grants[n..], a) == Filter(isMine, grants[n..]);
      if grants[n].adminId == a {
        assert mine[p] == grants[n];
        forall i | 0 <= i < |mine| && mine[i].id == grants[n].id ensures i == p {
          assert GrantIdOf(mine[i]) == GrantIdOf(mine[p]);
        }
      } else {
        forall i | 0 <= i < |mine| ensures mine[i].id != grants[n].id {
          assert mine[i] in mine;
          var k :| 0 <= k < |grants| && grants[k] == mine[i];
          assert k != n ==> GrantIdOf(grants[k]) != GrantIdOf(grants[n]);
        }
      }
    }
  }

  /** Nothing is evicted exactly if this admin has less than ten grants. */
  lemma NothingEvicted(grants: seq<Grant>, a: string)
    requires |WithoutIds(grants, Overflow(grants, a))| == |grants| && Unique(GrantIdOf, grants)
    ensures |Mine(grants, a)| < 10 && WithoutIds(grants, Overflow(grants, a)) == grants
  {
    var drop := Overflow(grants, a);
    FullFilter((g: Grant) => g.id !in drop, grants);
    EvictionKeepsNewest(grants, a);
  }

  lemma FewEvictNothing(grants: seq<Grant>, a: string)
    requires |Mine(grants, a)| < 10
    ensures WithoutIds(grants, Overflow(grants, a)) == grants
  {
    var drop := Overflow(grants, a);
    assert drop == {};
    FilterAll((g: Grant) => g.id !in drop, grants);
  }

  /** The rows before the new grant are those of the old ones that are left, in their order. */
  ghost predicate Leaves(before: seq<Grant>, after: seq<Grant>, g: Grant) {
    && |after| > 0 && after[|after| - 1] == g
    && after[..|after| - 1] == Filter((h: Grant) => Live(after, h.id), before)
  }

  lemma LiveWithout(grants: seq<Grant>, drop: set<string>, g: Grant, n: nat)
    requires n < |grants| && grants[n].id != g.id && Unique(GrantIdOf, grants)
    ensures Live(WithoutIds(grants, drop) + [g], grants[n].id) <==> grants[n].id !in drop
  {
    var rest := WithoutIds(grants, drop);
    FilterMembers((x: Grant) => x.id !in drop, grants);
    if grants[n].id !in drop {
      assert grants[n] in rest;
      var k :| 0 <= k < |rest| && rest[k] == grants[n];
      assert (rest + [g])[k] == rest[k];
    } else {
      forall k | 0 <= k < |rest| ensures rest[k].id != grants[n].id {
        assert rest[k] in rest;
      }
    }
  }

  /** Which of the stored grants a new one removes, and that the others stay in their order before it. */
  lemma AddingEnds(grants: seq<Grant>, g: Grant, n: nat)
    requires CapsOk(grants) && n < |grants| && forall k :: 0 <= k < |grants| ==> grants[k].id != g.id
    ensures !Live(AddGrant(grants, g), grants[n].id)
       <==> || (grants[n].adminId == g.adminId && |Mine(grants[n..], g.adminId)| >= 10)
            || (n == 0 && |grants| == 200 && |Mine(grants, g.adminId)| < 10)
  {
    var a := g.adminId;
    var rest := WithoutIds(grants, Overflow(grants, a));
    SurplusIs(grants, n);
    LiveWithout(grants, Overflow(grants, a), g, n);
    if |rest| < KEEP_ROWS {
      if |Mine(grants, a)| < 10 { FewEvictNothing(grants, a); }
    } else {
      NothingEvicted(grants, a);
      LaterAreFewer(grants, a, n);
      OldestIsPushed(grants, g, n);
    }
  }

  lemma LaterAreFewer(grants: seq<Grant>, a: string, n: nat)
    requires n < |grants|
    ensures |Mine(grants[n..], a)| <= |Mine(grants, a)|
  {
    assert grants == grants[..n] + grants[n..];
    FilterConcat((g: Grant) => g.adminId == a, grants[..n], grants[n..]);
  }

  lemma OldestIsPushed(grants: seq<Grant>, g: Grant, n: nat)
    requires Unique(GrantIdOf, grants) && n < |grants| && grants[n].id != g.id
    ensures Live(grants[1..] + [g], grants[n].id) <==> n != 0
  {
    var after := grants[1..] + [g];
    if n != 0 { assert after[n - 1] == grants[n]; }
    forall k | 0 <= k < |after| && after[k].id == grants[n].id ensures n != 0 {
      assert after[k] == grants[k + 1] && GrantIdOf(grants[k + 1]) == GrantIdOf(grants[n]);
    }
  }

  lemma AddingLeaves(grants: seq<Grant>, g: Grant)
    requires CapsOk(grants) && forall k :: 0 <= k < |grants| ==> grants[k].id != g.id
    ensures Leaves(grants, AddGrant(grants, g), g)
  {
    var rest := WithoutIds(grants, Overflow(grants, g.adminId));
    if |rest| < KEEP_ROWS {
      EvictionLeaves(grants, Overflow(grants, g.adminId), g, rest + [g]);
    } else {
      NothingEvicted(grants, g.adminId);
      PushingLeaves(grants, g, grants[1..] + [g]);
      assert AddGrant(grants, g) == grants[1..] + [g];
    }
  }

  lemma EvictionLeaves(grants: seq<Grant>, drop: set<string>, g: Grant, after: seq<Grant>)
    requires Unique(GrantIdOf, grants) && forall k :: 0 <= k < |grants| ==> grants[k].id != g.id
    requires after == WithoutIds(grants, drop) + [g]
    ensures Leaves(grants, after, g)
  {
    forall h | h in grants ensures Live(after, h.id) <==> h.id !in drop {
      var n :| 0 <= n < |grants| && grants[n] == h;
      LiveWithout(grants, drop, g, n);
    }
    FilterSame((h: Grant) => Live(after, h.id), (h: Grant) => h.id !in drop, grants);
  }

  lemma PushingLeaves(grants: seq<Grant>, g: Grant, after: seq<Grant>)
    requires grants != [] && Unique(GrantIdOf, grants) && forall k :: 0 <= k < |grants| ==> grants[k].id != g.id
    requires after == grants[1..] + [g]
    ensures Leaves(grants, after, g)
  {
    var left := (h: Grant) => Live(after, h.id);
    forall n | 0 <= n < |grants| ensures left(grants[n]) <==> n != 0 { OldestIsPushed(grants, g, n); }
    FilterAll(left, grants[1..]);
  }

  lemma OthersEndGrants(w: World, e: Event, n: nat)
    requires Inv(w) && Enabled(w, e) && n < |w.grants| && !e.StoreGrant? && !e.Refresh? && !e.Revoke? && !e.RevokeGrant?
    ensures Live(Step(w, e).0.grants, w.grants[n].id)
  {
    if e.TouchGrant? {
      TouchChangesStampOnly(w, e.tid);
      assert Step(w, e).0.grants[n].id == w.grants[n].id;
    } else {
      GrantsStay(w, e);
    }
  }

  lemma GrantsStay(w: World, e: Event)
    requires Inv(w) && Enabled(w, e) && (e.TakeCode? || e.StoreCode? || e.Register? || e.CheckConsent? || e.ReadToken?)
    ensures Step(w, e).0.grants == w.grants
  {
    if e.TakeCode? { TakeCodeCases(w, e); } else if !e.StoreCode? { ReadersChangeNoRows(w, e); }
  }

  lemma RemovedIs(grants: seq<Grant>, i: nat, n: nat)
    requires Unique(GrantIdOf, grants) && i < |grants| && n < |grants|
    ensures Live(RemoveAt(grants, i), grants[n].id) <==> n != i
  {
    var after := RemoveAt(grants, i);
    if n != i {
      assert after[if n < i then n else n - 1] == grants[n];
    }
    forall k | 0 <= k < |after| && after[k].id == grants[n].id ensures n != i {
      var m := if k < i then k else k + 1;
      assert after[k] == grants[m] && (m != n ==> GrantIdOf(grants[m]) != GrantIdOf(grants[n]));
    }
  }

  lemma RefreshEnds(w: World, e: Event, n: nat)
    requires Inv(w) && Enabled(w, e) && n < |w.grants| && e.Refresh?
    ensures !Live(Step(w, e).0.grants, w.grants[n].id) <==> GrantEnds(w, e, n)
  {
    RefreshOutcome(w, e);
    if i :| Predecessor(w, e.token, i) {
      RemovedAt(w, e.token, i, n);
    } else if i :| Current(w, e.token, RefreshToken, i) && Acceptable(w.grants[i], e.clientId, e.now) {
      RemovedAt(w, e.token, i, n);
      if e.isAdmin { assert Step(w, e).0.grants[n].id == w.grants[n].id; }
    }
  }

  lemma RemovedAt(w: World, token: string, i: int, n: nat)
    requires TokenInv(w) && n < |w.grants|
    requires Current(w, token, AccessToken, i) || Current(w, token, RefreshToken, i) || Predecessor(w, token, i)
    ensures Live(RemoveAt(w.grants, i), w.grants[n].id) <==> n != i
    ensures Current(w, token, AccessToken, n) || Current(w, token, RefreshToken, n) || Predecessor(w, token, n) ==> n == i
    ensures Current(w, token, RefreshToken, i) ==> !Predecessor(w, token, n)
  {
    RemovedIs(w.grants, i, n);
    if Current(w, token, AccessToken, n) || Current(w, token, RefreshToken, n) || Predecessor(w, token, n) {
      OnePlace(w, token, i, n);
    }
  }

  lemma RevokeEnds(w: World, e: Event, n: nat)
    requires Inv(w) && Enabled(w, e) && n < |w.grants| && e.Revoke?
    ensures !Live(Step(w, e).0.grants, w.grants[n].id) <==> GrantEnds(w, e, n)
  {
    RevokeIsExact(w, e.token);
    if i :| Current(w, e.token, AccessToken, i) || Current(w, e.token, RefreshToken, i) {
      RemovedAt(w, e.token, i, n);
    }
  }

  lemma RevokeGrantEnds(w: World, e: Event, n: nat)
    requires Inv(w) && Enabled(w, e) && n < |w.grants| && e.RevokeGrant?
    ensures !Live(Step(w, e).0.grants, w.grants[n].id) <==> GrantEnds(w, e, n)
  {
    RevokeGrantIsExact(w, e.adminId, e.grantId);
    if i :| 0 <= i < |w.grants| && w.grants[i].id == e.grantId && w.grants[i].adminId == e.adminId {
      RemovedIs(w.grants, i, n);
      assert i != n ==> GrantIdOf(w.grants[i]) != GrantIdOf(w.grants[n]);
    }
  }

  lemma StoringGrantEnds(w: World, e: Event, n: nat)
    requires Inv(w) && Enabled(w, e) && n < |w.grants| && e.StoreGrant?
    ensures !Live(Step(w, e).0.grants, w.grants[n].id) <==> GrantEnds(w, e, n)
  {
    StoreGrantCases(w, e);
    if e.isAdmin {
      var g := NewGrant(w.clients, w.threads[e.tid], e.grantId, e.access, e.refresh);
      NewIdIsNew(w, e);
      AddingEnds(w.grants, g, n);
    }
  }

  lemma NewIdIsNew(w: World, e: Event)
    requires TokenInv(w) && Enabled(w, e) && e.StoreGrant?
    ensures forall k :: 0 <= k < |w.grants| ==> w.grants[k].id != e.grantId
  {
    forall k | 0 <= k < |w.grants| ensures w.grants[k].id != e.grantId {
      assert GrantOk(w.grants[k], w.tokens, w.generations);
    }
  }

  /** A stored grant goes exactly at these steps. */
  lemma GrantEndsExactly(w: World, e: Event, n: nat)
    requires Inv(w) && Enabled(w, e) && n < |w.grants|
    ensures !Live(Step(w, e).0.grants, w.grants[n].id) <==> GrantEnds(w, e, n)
  {
    if e.Refresh? {
      RefreshEnds(w, e, n);
    } else if e.Revoke? {
      RevokeEnds(w, e, n);
    } else if e.RevokeGrant? {
      RevokeGrantEnds(w, e, n);
    } else if e.StoreGrant? {
      StoringGrantEnds(w, e, n);
    } else {
      OthersEndGrants(w, e, n);
    }
  }

  /** The grant has the name of its client, or the general one if that is empty or the client is not stored any more. */
  ghost predicate NamedAfter(clients: seq<Client>, g: Grant) {
    && (forall c :: c in clients && c.id == g.clientId && (forall d :: d in clients && d.id == c.id ==> d == c)
          ==> g.clientName == if c.name != "" then c.name else "AI klient")
    && ((forall c :: c in clients ==> c.id != g.clientId) ==> g.clientName == "AI klient")
  }

  lemma NewGrantIs(w: World, e: Event, g: Grant)
    requires Enabled(w, e) && e.StoreGrant? && g == NewGrant(w.clients, w.threads[e.tid], e.grantId, e.access, e.refresh)
    ensures g.id == e.grantId && g.adminId == w.threads[e.tid].row.adminId && g.clientId == w.threads[e.tid].row.clientId
    ensures g.createdAt == w.threads[e.tid].now && g.lastUsedAt == 0 && NamedAfter(w.clients, g)
  {
  }

  lemma GrantedParts(w: World, e: Event, g: Grant)
    requires Enabled(w, e) && e.StoreGrant? && e.isAdmin
    requires g == NewGrant(w.clients, w.threads[e.tid], e.grantId, e.access, e.refresh)
    ensures Step(w, e).0.grants == AddGrant(w.grants, g) && Issues(w, Step(w, e).0, e.grantId, 0, e.access, e.refresh)
  {
    StoreGrantCases(w, e);
  }

  lemma IssuedAreCurrent(w: World, v: World, i: nat, access: string, refresh: string)
    requires i < |v.grants| && access != refresh && Issues(w, v, v.grants[i].id, 0, access, refresh)
    ensures Current(v, access, AccessToken, i) && Current(v, refresh, RefreshToken, i)
  {
  }

  /** What a finished exchange stores: a grant of the consent's admin and client under the client's name, made at the time
      of the exchange, never used, with its two tokens as the current ones, behind all that stay. */
  lemma StoredGrantIs(w: World, e: Event)
    requires Inv(w) && Enabled(w, e) && e.StoreGrant? && e.isAdmin
    ensures var (v, x) := (Step(w, e).0, w.threads[e.tid]);
            && |v.grants| > 0
            && var g := v.grants[|v.grants| - 1];
            && Leaves(w.grants, v.grants, g)
            && g.id == e.grantId && g.adminId == x.row.adminId && g.clientId == x.row.clientId
            && g.createdAt == x.now && g.lastUsedAt == 0 && NamedAfter(w.clients, g)
            && Current(v, e.access, AccessToken, |v.grants| - 1) && Current(v, e.refresh, RefreshToken, |v.grants| - 1)
  {
    var v := Step(w, e).0;
    var g := NewGrant(w.clients, w.threads[e.tid], e.grantId, e.access, e.refresh);
    NewGrantIs(w, e, g);
    NewIdIsNew(w, e);
    AddingLeaves(w.grants, g);
    GrantedParts(w, e, g);
    IssuedAreCurrent(w, v, |v.grants| - 1, e.access, e.refresh);
  }
}
