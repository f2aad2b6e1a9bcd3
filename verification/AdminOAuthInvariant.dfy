/** What every locked section of the admin OAuth server keeps. Each part of the invariant
    names only the fields it constrains. */
module AdminOAuthInvariant {
  import opened Seqs
  import opened Texts
  import opened AdminOAuth

  /** `d` is the hash of the token at this place of the history. */
  ghost predicate Backed(tokens: map<Issue, string>, d: Digest, issue: Issue) {
    issue in tokens && d == Sha256(tokens[issue])
  }

  /** A stored grant holds the hashes of its family's current tokens and of the refresh token just before. */
  ghost predicate GrantOk(g: Grant, tokens: map<Issue, string>, generations: map<string, nat>) {
    && g.id in generations
    && var n := generations[g.id];
    && Backed(tokens, g.accessHash, Issue(g.id, AccessToken, n))
    && Backed(tokens, g.refreshHash, Issue(g.id, RefreshToken, n))
    && (if n == 0 then g.prevRefreshHash == NoDigest
        else Backed(tokens, g.prevRefreshHash, Issue(g.id, RefreshToken, n - 1)))
  }

  ghost predicate GrantsOk(grants: seq<Grant>, tokens: map<Issue, string>, generations: map<string, nat>) {
    forall i :: 0 <= i < |grants| ==> GrantOk(grants[i], tokens, generations)
  }

  ghost predicate CapsOk(grants: seq<Grant>) {
    && Unique(GrantIdOf, grants)
    && |grants| <= KEEP_ROWS
    && forall a :: |Mine(grants, a)| <= MAX_GRANTS_PER_ADMIN
  }

  /** Tokens and their places determine each other; no place lies past its family's last rotation. */
  ghost predicate LedgerOk(ledger: map<string, Issue>, tokens: map<Issue, string>, generations: map<string, nat>) {
    && (forall t :: t in ledger ==>
          && ledger[t] in tokens && tokens[ledger[t]] == t
          && ledger[t].family in generations && ledger[t].generation <= generations[ledger[t].family]
          && (ledger[t].kind == AccessToken ==> StartsWith(t, ACCESS_PREFIX)))
    && (forall i :: i in tokens ==> tokens[i] in ledger && ledger[tokens[i]] == i)
  }

  /** A code row carries exactly what its consent recorded. */
  ghost predicate CodeOk(r: CodeRow, consents: map<string, Consent>) {
    && r.code.Sha256? && r.code.text in consents
    && var c := consents[r.code.text];
       r == CodeRow(r.code, c.at + CODE_TTL_SEC, c.clientId, c.redirectUri, c.challenge, c.adminId)
  }

  ghost predicate CodesOk(codes: seq<CodeRow>, consents: map<string, Consent>, spent: set<string>) {
    && (forall i :: 0 <= i < |codes| ==> CodeOk(codes[i], consents) && codes[i].code.text !in spent)
    && Unique(CodeOf, codes)
    && |codes| <= KEEP_ROWS
  }

  /** A thread between taking a code and storing the grant: it alone holds the code, which is spent and not redeemed. */
  ghost predicate ExchangeOk(tid: nat, c: Continuation, consents: map<string, Consent>, spent: set<string>,
                             takers: map<string, nat>, redeemed: map<string, string>)
    requires c.Exchanging?
  {
    && CodeOk(c.row, consents) && c.row.code.text in spent
    && c.row.challenge == S256(c.verifier) && c.now < c.row.exp
    && c.row.code.text in takers && takers[c.row.code.text] == tid
    && c.row.code.text !in redeemed
  }

  ghost predicate ThreadsOk(threads: map<nat, Continuation>, consents: map<string, Consent>, spent: set<string>,
                            takers: map<string, nat>, redeemed: map<string, string>) {
    && (forall t :: t in threads && threads[t].Exchanging? ==> ExchangeOk(t, threads[t], consents, spent, takers, redeemed))
    && (forall c :: c in takers ==> c in spent)
  }

  /** The exchange a grant came from met its consent's challenge in time, and no two grants share a code. */
  ghost predicate OriginOk(f: string, x: Exchange, consents: map<string, Consent>, redeemed: map<string, string>) {
    && x.code in consents && x.code in redeemed && redeemed[x.code] == f
    && consents[x.code].challenge == S256(x.verifier)
    && x.now - consents[x.code].at < CODE_TTL_SEC
  }

  ghost predicate OriginsOk(origins: map<string, Exchange>, consents: map<string, Consent>, spent: set<string>,
                            redeemed: map<string, string>) {
    && (forall f :: f in origins ==> OriginOk(f, origins[f], consents, redeemed))
    && (forall c :: c in redeemed ==> c in spent)
    && (forall c :: c in spent ==> c in consents)
  }

  /** A grant is for the client and the admin that its consent named. */
  ghost predicate Bound(g: Grant, origins: map<string, Exchange>, consents: map<string, Consent>) {
    && g.id in origins && origins[g.id].code in consents
    && g.clientId == consents[origins[g.id].code].clientId
    && g.adminId == consents[origins[g.id].code].adminId
  }

  ghost predicate BindingsOk(grants: seq<Grant>, origins: map<string, Exchange>, consents: map<string, Consent>) {
    forall i :: 0 <= i < |grants| ==> Bound(grants[i], origins, consents)
  }

  ghost predicate TokenInv(w: World) {
    && GrantsOk(w.grants, w.tokens, w.generations)
    && CapsOk(w.grants)
    && LedgerOk(w.ledger, w.tokens, w.generations)
    && w.origins.Keys == w.generations.Keys
  }

  ghost predicate CodeInv(w: World) {
    && CodesOk(w.codes, w.consents, w.spent)
    && ThreadsOk(w.threads, w.consents, w.spent, w.takers, w.redeemed)
    && OriginsOk(w.origins, w.consents, w.spent, w.redeemed)
  }

  ghost predicate Inv(w: World) {
    TokenInv(w) && CodeInv(w) && BindingsOk(w.grants, w.origins, w.consents)
  }

  ghost predicate Live(grants: seq<Grant>, family: string) {
    exists i :: 0 <= i < |grants| && grants[i].id == family
  }

  ghost predicate Grows<K, V>(a: map<K, V>, b: map<K, V>) {
    forall k :: k in a ==> k in b && b[k] == a[k]
  }

  ghost predicate Rises(a: map<string, nat>, b: map<string, nat>) {
    forall f :: f in a ==> f in b && a[f] <= b[f]
  }

  /** A family known so far that has no grant gets none later. */
  ghost predicate DeadStaysDead(known: map<string, nat>, before: seq<Grant>, after: seq<Grant>) {
    forall f :: f in known && Live(after, f) ==> Live(before, f)
  }

  /** History only grows, generations only rise, and a family that lost its grant never gets one again. */
  ghost predicate Extends(w: World, v: World) {
    && Grows(w.ledger, v.ledger)
    && Rises(w.generations, v.generations)
    && Grows(w.consents, v.consents)
    && w.spent <= v.spent
    && Grows(w.origins, v.origins)
    && DeadStaysDead(w.generations, w.grants, v.grants)
  }

  // ------------------------------------------------------------- grant-list facts --

  /** `after` is `before` with rows removed: same rows, no more of anyone's. */
  ghost predicate Shrinks(before: seq<Grant>, after: seq<Grant>) {
    && (forall i :: 0 <= i < |after| ==> after[i] in before)
    && (Unique(GrantIdOf, before) ==> Unique(GrantIdOf, after))
    && |after| <= |before|
    && forall a :: |Mine(after, a)| <= |Mine(before, a)|
  }

  lemma FilterShrinks(grants: seq<Grant>, f: Grant -> bool)
    ensures Shrinks(grants, Filter(f, grants))
  {
    var after := Filter(f, grants);
    FilterMembers(f, grants);
    forall i | 0 <= i < |after| ensures after[i] in grants {
      assert after[i] in Filter(f, grants);
    }
    if Unique(GrantIdOf, grants) {
      UniqueFilter(GrantIdOf, f, grants);
    }
    forall a ensures |Mine(after, a)| <= |Mine(grants, a)| {
      var of := (g: Grant) => g.adminId == a;
      FilterCommutes(of, f, grants);
      assert Mine(after, a) == Filter(f, Mine(grants, a));
    }
  }

  lemma RemovalShrinks(grants: seq<Grant>, i: nat)
    requires i < |grants|
    ensures Shrinks(grants, RemoveAt(grants, i))
  {
    forall a ensures |Mine(RemoveAt(grants, i), a)| <= |Mine(grants, a)| {
      var of := (g: Grant) => g.adminId == a;
      assert grants == grants[..i] + ([grants[i]] + grants[i + 1..]);
      FilterConcat(of, grants[..i], [grants[i]] + grants[i + 1..]);
      FilterConcat(of, [grants[i]], grants[i + 1..]);
      FilterConcat(of, grants[..i], grants[i + 1..]);
    }
  }

  lemma LastShrinks(grants: seq<Grant>, n: nat)
    ensures Shrinks(grants, Last(grants, n))
  {
    forall a ensures |Mine(Last(grants, n), a)| <= |Mine(grants, a)| {
      FilterLast((g: Grant) => g.adminId == a, grants, n);
    }
  }

  /** Adding a grant evicts exactly this admin's oldest ones: what is left of his are the newest nine. */
  lemma EvictionKeepsNewest(grants: seq<Grant>, adminId: string)
    requires Unique(GrantIdOf, grants)
    ensures var mine := Mine(grants, adminId);
            Mine(WithoutIds(grants, Overflow(grants, adminId)), adminId)
            == if |mine| < 10 then mine else mine[|mine| - 9..]
  {
    var isMine := (g: Grant) => g.adminId == adminId;
    var drop := Overflow(grants, adminId);
    var stays := (g: Grant) => g.id !in drop;
    var mine := Filter(isMine, grants);
    assert Mine(grants, adminId) == mine;
    FilterCommutes(isMine, stays, grants);
    UniqueFilter(GrantIdOf, isMine, grants);
    var surplus := if |mine| < MAX_GRANTS_PER_ADMIN then 0 else |mine| - MAX_GRANTS_PER_ADMIN + 1;
    DropPrefixByKey(GrantIdOf, stays, mine, surplus);
    assert Mine(WithoutIds(grants, drop), adminId) == Filter(isMine, Filter(stays, grants));
  }

  lemma AddGrantKeepsCaps(grants: seq<Grant>, g: Grant)
    requires CapsOk(grants) && forall i :: 0 <= i < |grants| ==> grants[i].id != g.id
    ensures CapsOk(AddGrant(grants, g))
    ensures forall i :: 0 <= i < |AddGrant(grants, g)| ==> AddGrant(grants, g)[i] == g || AddGrant(grants, g)[i] in grants
  {
    var drop := Overflow(grants, g.adminId);
    var rest := WithoutIds(grants, drop);
    FilterShrinks(grants, (x: Grant) => x.id !in drop);
    assert Unique(GrantIdOf, rest + [g]);
    LastShrinks(rest + [g], KEEP_ROWS);
    forall a ensures |Mine(rest + [g], a)| <= MAX_GRANTS_PER_ADMIN {
      var of := (x: Grant) => x.adminId == a;
      FilterConcat(of, rest, [g]);
      assert Mine(rest + [g], a) == Mine(rest, a) + Filter(of, [g]);
      if a == g.adminId {
        EvictionKeepsNewest(grants, a);
      } else {
        assert Filter(of, [g]) == [];
      }
    }
  }

  lemma SameAdminsKeepMine(grants: seq<Grant>, after: seq<Grant>, a: string)
    requires |after| == |grants|
    requires forall i :: 0 <= i < |grants| ==> after[i].adminId == grants[i].adminId
    ensures |Mine(after, a)| == |Mine(grants, a)|
  {
    if grants != [] {
      SameAdminsKeepMine(grants[1..], after[1..], a);
    }
  }

  lemma SameOwnersKeepCaps(grants: seq<Grant>, after: seq<Grant>)
    requires CapsOk(grants) && |after| == |grants|
    requires forall i :: 0 <= i < |grants| ==> after[i].adminId == grants[i].adminId && after[i].id == grants[i].id
    ensures CapsOk(after)
    ensures forall f :: Live(after, f) ==> Live(grants, f)
  {
    forall a ensures |Mine(after, a)| <= MAX_GRANTS_PER_ADMIN {
      SameAdminsKeepMine(grants, after, a);
    }
  }

  /** Rows that keep id, owner, client and token hashes stay within every invariant about rows. */
  lemma ShrinkKeepsRows(w: World, grants: seq<Grant>)
    requires TokenInv(w) && BindingsOk(w.grants, w.origins, w.consents) && Shrinks(w.grants, grants)
    ensures GrantsOk(grants, w.tokens, w.generations) && CapsOk(grants) && BindingsOk(grants, w.origins, w.consents)
    ensures DeadStaysDead(w.generations, w.grants, grants)
  {
    forall i | 0 <= i < |grants|
      ensures GrantOk(grants[i], w.tokens, w.generations) && Bound(grants[i], w.origins, w.consents)
    {
      assert grants[i] in w.grants;
    }
    forall f | Live(grants, f) ensures Live(w.grants, f) {
      var i :| 0 <= i < |grants| && grants[i].id == f;
      assert grants[i] in w.grants;
    }
  }

  // ------------------------------------------------------------ preservation, step by step --

  lemma ShrinkKeepsInv(w: World, grants: seq<Grant>)
    requires Inv(w) && Shrinks(w.grants, grants)
    ensures Inv(w.(grants := grants)) && Extends(w, w.(grants := grants))
  {
    ShrinkKeepsRows(w, grants);
  }

  /** Client rows and threads that wait with anything but a taken code carry no obligation. */
  lemma OtherThreadsKeepInv(w: World, clients: seq<Client>, threads: map<nat, Continuation>)
    requires Inv(w)
    requires forall t :: t in threads && threads[t].Exchanging? ==> t in w.threads && w.threads[t] == threads[t]
    ensures Inv(w.(clients := clients, threads := threads)) && Extends(w, w.(clients := clients, threads := threads))
  {
  }

  lemma UnexpiredKeepsCodes(codes: seq<CodeRow>, consents: map<string, Consent>, spent: set<string>, now: int)
    requires CodesOk(codes, consents, spent)
    ensures CodesOk(Unexpired(codes, now), consents, spent)
    ensures forall i :: 0 <= i < |Unexpired(codes, now)| ==> Unexpired(codes, now)[i] in codes && Unexpired(codes, now)[i].exp > now
  {
    var f := (r: CodeRow) => r.exp > now;
    UniqueFilter(CodeOf, f, codes);
    FilterMembers(f, codes);
    var kept := Unexpired(codes, now);
    forall i | 0 <= i < |kept| ensures kept[i] in codes && kept[i].exp > now && CodeOk(kept[i], consents) && kept[i].code.text !in spent {
      assert kept[i] in Filter(f, codes);
    }
  }

  lemma StoredCodeKeepsCodes(codes: seq<CodeRow>, row: CodeRow, consents: map<string, Consent>, spent: set<string>, now: int)
    requires CodesOk(codes, consents, spent)
    requires CodeOk(row, consents) && row.code.text !in spent
    requires forall i :: 0 <= i < |codes| ==> codes[i].code != row.code
    ensures CodesOk(Last(Unexpired(codes, now) + [row], KEEP_ROWS), consents, spent)
  {
    UnexpiredKeepsCodes(codes, consents, spent, now);
    var kept := Unexpired(codes, now);
    assert forall i :: 0 <= i < |kept| ==> CodeOf(kept[i]) != row.code;
    assert Unique(CodeOf, kept + [row]);
  }

  lemma ConsentKeepsHistory(w: World, consents: map<string, Consent>)
    requires CodeInv(w) && BindingsOk(w.grants, w.origins, w.consents) && Grows(w.consents, consents)
    ensures ThreadsOk(w.threads, consents, w.spent, w.takers, w.redeemed)
    ensures OriginsOk(w.origins, consents, w.spent, w.redeemed)
    ensures BindingsOk(w.grants, w.origins, consents)
    ensures CodesOk(w.codes, consents, w.spent)
  {
  }

  lemma StoreCodeKeepsInv(w: World, e: Event)
    requires Inv(w) && e.StoreCode? && Enabled(w, e)
    ensures Inv(Step(w, e).0) && Extends(w, Step(w, e).0)
  {
    var StoreCode(tid, login, code, now) := e;
    OtherThreadsKeepInv(w, w.clients, w.threads - {tid});
    if login.Some? {
      var form := w.threads[tid].form;
      var row := CodeRow(Sha256(code), now + CODE_TTL_SEC, form.clientId, form.redirect.text, form.challenge, login.value);
      var consents := w.consents[code := Consent(form.clientId, form.redirect.text, form.challenge, login.value, now)];
      var codes := Last(Unexpired(w.codes, now) + [row], KEEP_ROWS);
      var u := w.(threads := w.threads - {tid});
      ConsentKeepsHistory(u, consents);
      StoredCodeKeepsCodes(w.codes, row, consents, w.spent, now);
      assert Step(w, e).0 == u.(codes := codes, consents := consents);
    }
  }

  /** The rows left once the code at `i` is taken, all of them when there is none. */
  function Rest(codes: seq<CodeRow>, i: nat): seq<CodeRow> {
    if i < |codes| then RemoveAt(codes, i) else codes
  }

  lemma RestKeepsCodes(codes: seq<CodeRow>, i: nat, consents: map<string, Consent>, spent: set<string>)
    requires CodesOk(codes, consents, spent)
    ensures CodesOk(Rest(codes, i), consents, spent)
    ensures i < |codes| ==> forall k :: 0 <= k < |Rest(codes, i)| ==> Rest(codes, i)[k].code != codes[i].code
    ensures forall k :: 0 <= k < |Rest(codes, i)| ==> Rest(codes, i)[k] in codes
  {
    var rest := Rest(codes, i);
    forall k | 0 <= k < |rest| ensures rest[k] in codes && (i < |codes| ==> CodeOf(rest[k]) != CodeOf(codes[i])) {
      assert rest[k] == codes[if k < i then k else k + 1];
    }
  }

  /** Whether or not the code was found, no row with its hash is left. */
  lemma TakenCodeKeepsCodes(codes: seq<CodeRow>, code: string, consents: map<string, Consent>, spent: set<string>, now: int)
    requires CodesOk(codes, consents, spent)
    ensures var kept := Unexpired(Rest(codes, FindCode(codes, Sha256(code), now)), now);
            && CodesOk(kept, consents, if code in consents then spent + {code} else spent)
            && forall k :: 0 <= k < |kept| ==> kept[k].code != Sha256(code)
  {
    var i := FindCode(codes, Sha256(code), now);
    var rest := Rest(codes, i);
    var kept := Unexpired(rest, now);
    RestKeepsCodes(codes, i, consents, spent);
    UnexpiredKeepsCodes(rest, consents, spent, now);
    forall k | 0 <= k < |kept| ensures kept[k].code != Sha256(code) {
      assert kept[k] in rest && kept[k].exp > now;
    }
  }

  /** A code that was not spent before is in no other thread and behind no grant. */
  lemma TakingKeepsHistory(w: World, code: string)
    requires CodeInv(w) && code in w.consents
    ensures OriginsOk(w.origins, w.consents, w.spent + {code}, w.redeemed)
    ensures ThreadsOk(w.threads, w.consents, w.spent + {code}, w.takers, w.redeemed)
    ensures code !in w.spent ==> code !in w.redeemed && code !in w.takers
    ensures forall tid: nat :: code !in w.spent && tid !in w.threads
              ==> ThreadsOk(w.threads, w.consents, w.spent + {code}, w.takers[code := tid], w.redeemed)
  {
  }

  /** The world after a code was presented: the row, if any, is gone. */
  function Presented(w: World, code: string, now: int): World {
    w.(codes := Unexpired(Rest(w.codes, FindCode(w.codes, Sha256(code), now)), now),
       spent := if code in w.consents then w.spent + {code} else w.spent)
  }

  /** A presentation ends with the code gone, and with a waiting exchange if every check passed. */
  lemma TakeCodeCases(w: World, e: Event)
    requires e.TakeCode? && Enabled(w, e) && |w.codes| <= KEEP_ROWS
    ensures var i := FindCode(w.codes, Sha256(e.code), e.now);
            var v := Presented(w, e.code, e.now);
            || Step(w, e).0 == v
            || (&& i < |w.codes| && w.codes[i].challenge == S256(e.verifier)
                && Step(w, e).0 == v.(threads := w.threads[e.tid := Exchanging(w.codes[i], e.verifier, e.now)],
                                      takers := w.takers[e.code := e.tid]))
  {
  }

  lemma PresentedKeepsInv(w: World, code: string, now: int)
    requires Inv(w)
    ensures Inv(Presented(w, code, now)) && Extends(w, Presented(w, code, now))
  {
    TakenCodeKeepsCodes(w.codes, code, w.consents, w.spent, now);
    if code in w.consents {
      TakingKeepsHistory(w, code);
    }
  }

  lemma WaitingExchangeKeepsThreads(w: World, i: nat, tid: nat, verifier: string, now: int)
    requires CodeInv(w) && tid !in w.threads && i < |w.codes| && w.codes[i].challenge == S256(verifier) && now < w.codes[i].exp
    ensures var row := w.codes[i];
            row.code.Sha256? && row.code.text in w.consents
            && ThreadsOk(w.threads[tid := Exchanging(row, verifier, now)], w.consents, w.spent + {row.code.text},
                         w.takers[row.code.text := tid], w.redeemed)
  {
    assert CodeOk(w.codes[i], w.consents);
    TakingKeepsHistory(w, w.codes[i].code.text);
  }

  lemma TakeCodeKeepsInv(w: World, e: Event)
    requires Inv(w) && e.TakeCode? && Enabled(w, e)
    ensures Inv(Step(w, e).0) && Extends(w, Step(w, e).0)
  {
    var i, v := FindCode(w.codes, Sha256(e.code), e.now), Step(w, e).0;
    TakeCodeCases(w, e);
    if v == Presented(w, e.code, e.now) {
      PresentedKeepsInv(w, e.code, e.now);
    } else {
      WaitingKeepsInv(w, i, e.tid, e.code, e.verifier, e.now);
    }
  }

  lemma WaitingKeepsInv(w: World, i: nat, tid: nat, code: string, verifier: string, now: int)
    requires Inv(w) && tid !in w.threads && i == FindCode(w.codes, Sha256(code), now) < |w.codes|
    requires w.codes[i].challenge == S256(verifier)
    ensures var v := Presented(w, code, now).(threads := w.threads[tid := Exchanging(w.codes[i], verifier, now)],
                                              takers := w.takers[code := tid]);
            (Inv(v) && Extends(w, v))
  {
    PresentedKeepsInv(w, code, now);
    WaitingExchangeKeepsThreads(w, i, tid, verifier, now);
  }

  /** Two unused tokens at a new place of the history: what was backed stays backed. */
  lemma IssuingKeepsLedger(w: World, family: string, n: nat, access: string, refresh: string)
    requires LedgerOk(w.ledger, w.tokens, w.generations) && FreshPair(w, access, refresh)
    requires if family in w.generations then n == w.generations[family] + 1 else n == 0
    ensures var ledger := IssuedLedger(w.ledger, family, n, access, refresh);
            var tokens := IssuedTokens(w.tokens, family, n, access, refresh);
            && LedgerOk(ledger, tokens, w.generations[family := n])
            && Grows(w.ledger, ledger) && Grows(w.tokens, tokens) && Rises(w.generations, w.generations[family := n])
  {
    var a, r := Issue(family, AccessToken, n), Issue(family, RefreshToken, n);
    assert a !in w.tokens && r !in w.tokens;
  }

  lemma BackingGrows(g: Grant, tokens: map<Issue, string>, after: map<Issue, string>,
                     generations: map<string, nat>, rising: map<string, nat>)
    requires GrantOk(g, tokens, generations) && Grows(tokens, after)
    requires g.id in rising && rising[g.id] == generations[g.id]
    ensures GrantOk(g, after, rising)
  {
  }

  /** The code moves from the waiting thread to the new grant's origin. */
  lemma ExchangeBecomesOrigin(w: World, tid: nat, family: string)
    requires CodeInv(w) && family !in w.origins
    requires tid in w.threads && w.threads[tid].Exchanging?
    ensures w.threads[tid].row.code.Sha256?
    ensures var x := w.threads[tid];
            var origins := w.origins[family := Exchange(x.row.code.text, x.verifier, x.now)];
            var redeemed := w.redeemed[x.row.code.text := family];
            && ThreadsOk(w.threads - {tid}, w.consents, w.spent, w.takers, redeemed)
            && OriginsOk(origins, w.consents, w.spent, redeemed)
            && Grows(w.origins, origins)
            && x.row.clientId == w.consents[x.row.code.text].clientId && x.row.adminId == w.consents[x.row.code.text].adminId
  {
    var x := w.threads[tid];
    assert ExchangeOk(tid, x, w.consents, w.spent, w.takers, w.redeemed);
    var redeemed := w.redeemed[x.row.code.text := family];
    forall t | t in w.threads && t != tid && w.threads[t].Exchanging?
      ensures ExchangeOk(t, w.threads[t], w.consents, w.spent, w.takers, redeemed)
    {
      assert ExchangeOk(t, w.threads[t], w.consents, w.spent, w.takers, w.redeemed);
    }
  }

  lemma StoredGrantKeepsRows(w: World, v: World, g: Grant)
    requires TokenInv(w) && BindingsOk(w.grants, w.origins, w.consents)
    requires v.grants == AddGrant(w.grants, g) && g.id !in w.generations
    requires Grows(w.tokens, v.tokens) && Grows(w.origins, v.origins) && v.consents == w.consents
    requires v.generations == w.generations[g.id := 0]
    requires GrantOk(g, v.tokens, v.generations) && Bound(g, v.origins, v.consents)
    ensures GrantsOk(v.grants, v.tokens, v.generations) && CapsOk(v.grants) && BindingsOk(v.grants, v.origins, v.consents)
    ensures DeadStaysDead(w.generations, w.grants, v.grants)
  {
    forall i | 0 <= i < |w.grants| ensures w.grants[i].id != g.id {
      assert GrantOk(w.grants[i], w.tokens, w.generations);
    }
    AddGrantKeepsCaps(w.grants, g);
    forall i | 0 <= i < |v.grants|
      ensures GrantOk(v.grants[i], v.tokens, v.generations) && Bound(v.grants[i], v.origins, v.consents)
      ensures v.grants[i] == g || Live(w.grants, v.grants[i].id)
    {
      if v.grants[i] != g {
        var k :| 0 <= k < |w.grants| && w.grants[k] == v.grants[i];
        assert Bound(w.grants[k], w.origins, w.consents);
        BackingGrows(w.grants[k], w.tokens, v.tokens, w.generations, v.generations);
      }
    }
  }

  lemma StoreGrantCases(w: World, e: Event)
    requires e.StoreGrant? && Enabled(w, e)
    ensures Step(w, e).0 == if e.isAdmin then Granted(w, e.tid, e.grantId, e.access, e.refresh) else w.(threads := w.threads - {e.tid})
  {
  }

  lemma NewGrantOk(w: World, tid: nat, grantId: string, access: string, refresh: string)
    requires CodeInv(w) && w.origins.Keys == w.generations.Keys
    requires Enabled(w, StoreGrant(tid, true, grantId, access, refresh))
    ensures var v := Granted(w, tid, grantId, access, refresh);
            var g := NewGrant(w.clients, w.threads[tid], grantId, access, refresh);
            GrantOk(g, v.tokens, v.generations) && Bound(g, v.origins, v.consents)
  {
    ExchangeBecomesOrigin(w, tid, grantId);
  }

  lemma GrantedKeepsTokens(w: World, tid: nat, grantId: string, access: string, refresh: string)
    requires TokenInv(w) && CodeInv(w) && BindingsOk(w.grants, w.origins, w.consents)
    requires Enabled(w, StoreGrant(tid, true, grantId, access, refresh))
    ensures var v := Granted(w, tid, grantId, access, refresh);
            && TokenInv(v) && BindingsOk(v.grants, v.origins, v.consents)
            && Grows(w.ledger, v.ledger) && Rises(w.generations, v.generations) && DeadStaysDead(w.generations, w.grants, v.grants)
  {
    var v := Granted(w, tid, grantId, access, refresh);
    IssuingKeepsLedger(w, grantId, 0, access, refresh);
    NewGrantOk(w, tid, grantId, access, refresh);
    StoredGrantKeepsRows(w, v, NewGrant(w.clients, w.threads[tid], grantId, access, refresh));
  }

  lemma StoreGrantKeepsInv(w: World, e: Event)
    requires Inv(w) && e.StoreGrant? && Enabled(w, e)
    ensures Inv(Step(w, e).0) && Extends(w, Step(w, e).0)
  {
    StoreGrantCases(w, e);
    if e.isAdmin {
      ExchangeBecomesOrigin(w, e.tid, e.grantId);
      GrantedKeepsTokens(w, e.tid, e.grantId, e.access, e.refresh);
    } else {
      OtherThreadsKeepInv(w, w.clients, w.threads - {e.tid});
    }
  }

  /** Rotating one grant: its two current tokens move on by one generation, the refresh token becomes the predecessor. */
  lemma RotationKeepsGrants(w: World, i: nat, access: string, refresh: string, now: int)
    requires TokenInv(w) && i < |w.grants| && FreshPair(w, access, refresh)
    ensures w.grants[i].id in w.generations
    ensures var f := w.grants[i].id;
            var n := w.generations[f] + 1;
            GrantsOk(w.grants[i := Rotated(w.grants[i], access, refresh, now)],
                     IssuedTokens(w.tokens, f, n, access, refresh), w.generations[f := n])
  {
    var g := w.grants[i];
    assert GrantOk(g, w.tokens, w.generations);
    var n := w.generations[g.id] + 1;
    var tokens, generations := IssuedTokens(w.tokens, g.id, n, access, refresh), w.generations[g.id := n];
    var grants := w.grants[i := Rotated(g, access, refresh, now)];
    IssuingKeepsLedger(w, g.id, n, access, refresh);
    forall k | 0 <= k < |grants| ensures GrantOk(grants[k], tokens, generations) {
      assert GrantOk(w.grants[k], w.tokens, w.generations);
      if k != i {
        assert GrantIdOf(w.grants[k]) != GrantIdOf(g);
        BackingGrows(w.grants[k], w.tokens, tokens, w.generations, generations);
      }
    }
  }

  lemma RotationKeepsOwners(w: World, i: nat, access: string, refresh: string, now: int)
    requires CapsOk(w.grants) && BindingsOk(w.grants, w.origins, w.consents) && i < |w.grants|
    ensures var grants := w.grants[i := Rotated(w.grants[i], access, refresh, now)];
            && CapsOk(grants) && BindingsOk(grants, w.origins, w.consents)
            && DeadStaysDead(w.generations, w.grants, grants)
  {
    var grants := w.grants[i := Rotated(w.grants[i], access, refresh, now)];
    SameOwnersKeepCaps(w.grants, grants);
    forall k | 0 <= k < |grants| ensures Bound(grants[k], w.origins, w.consents) {
      assert Bound(w.grants[k], w.origins, w.consents);
    }
  }

  /** The parts of the world after a rotation. */
  lemma RotatedParts(w: World, i: nat, access: string, refresh: string, now: int)
    requires i < |w.grants| && w.grants[i].id in w.generations
    ensures var v, f := RotatedWorld(w, i, access, refresh, now), w.grants[i].id;
            var n := w.generations[f] + 1;
            && v.grants == w.grants[i := Rotated(w.grants[i], access, refresh, now)]
            && Issues(w, v, f, n, access, refresh) && v.generations.Keys == w.generations.Keys
            && v.origins == w.origins && v.consents == w.consents
  {
  }

  /** What issuing two tokens to a family does to the history. */
  ghost predicate Issues(w: World, v: World, family: string, n: nat, access: string, refresh: string) {
    && v.ledger == IssuedLedger(w.ledger, family, n, access, refresh)
    && v.tokens == IssuedTokens(w.tokens, family, n, access, refresh)
    && v.generations == w.generations[family := n]
  }

  lemma IssuedWorldKeepsLedger(w: World, v: World, family: string, n: nat, access: string, refresh: string)
    requires LedgerOk(w.ledger, w.tokens, w.generations) && FreshPair(w, access, refresh)
    requires if family in w.generations then n == w.generations[family] + 1 else n == 0
    requires Issues(w, v, family, n, access, refresh)
    ensures LedgerOk(v.ledger, v.tokens, v.generations)
    ensures Grows(w.ledger, v.ledger) && Grows(w.tokens, v.tokens) && Rises(w.generations, v.generations)
  {
    IssuingKeepsLedger(w, family, n, access, refresh);
  }

  lemma RotationKeepsRows(w: World, i: nat, access: string, refresh: string, now: int)
    requires TokenInv(w) && BindingsOk(w.grants, w.origins, w.consents) && FreshPair(w, access, refresh) && i < |w.grants|
    ensures var v := RotatedWorld(w, i, access, refresh, now);
            && GrantsOk(v.grants, v.tokens, v.generations) && CapsOk(v.grants)
            && BindingsOk(v.grants, v.origins, v.consents) && DeadStaysDead(w.generations, w.grants, v.grants)
            && v.generations.Keys == w.generations.Keys && w.grants[i].id in w.generations
  {
    RotationKeepsGrants(w, i, access, refresh, now);
    RotationKeepsOwners(w, i, access, refresh, now);
    RotatedParts(w, i, access, refresh, now);
  }

  lemma RotationKeepsInv(w: World, i: nat, access: string, refresh: string, now: int)
    requires Inv(w) && FreshPair(w, access, refresh) && i < |w.grants|
    ensures var v := RotatedWorld(w, i, access, refresh, now); Inv(v) && Extends(w, v)
  {
    RotationKeepsRows(w, i, access, refresh, now);
    RotatedParts(w, i, access, refresh, now);
    var f := w.grants[i].id;
    IssuedWorldKeepsLedger(w, RotatedWorld(w, i, access, refresh, now), f, w.generations[f] + 1, access, refresh);
  }

  /** The four ways a refresh ends. */
  lemma RefreshCases(w: World, e: Event)
    requires e.Refresh? && Enabled(w, e) && |w.grants| <= KEEP_ROWS
    ensures var reused, i := FindReused(w.grants, Sha256(e.token)), FindRefresh(w.grants, Sha256(e.token), e.now);
            Step(w, e).0 ==
              if reused < |w.grants| then w.(grants := RemoveAt(w.grants, reused))
              else if i == |w.grants| || (e.clientId != "" && w.grants[i].clientId != e.clientId) then w
              else if !e.isAdmin then w.(grants := RemoveAt(w.grants, i))
              else RotatedWorld(w, i, e.access, e.refresh, e.now)
  {
  }

  lemma RefreshTouchesGrantsOnly(w: World, token: string, clientId: string, isAdmin: bool, access: string, refresh: string, now: int)
    ensures var v := RefreshStep(w, token, clientId, isAdmin, access, refresh, now).0;
            v == w.(grants := v.grants, ledger := v.ledger, tokens := v.tokens, generations := v.generations)
  {
    var reused, i := FindReused(w.grants, Sha256(token)), FindRefresh(w.grants, Sha256(token), now);
    if reused < |w.grants| {
    } else if i == |w.grants| || (clientId != "" && w.grants[i].clientId != clientId) {
    } else if !isAdmin {
    } else {
    }
  }

  lemma RefreshKeepsInv(w: World, e: Event)
    requires Inv(w) && e.Refresh? && Enabled(w, e)
    ensures Inv(Step(w, e).0) && Extends(w, Step(w, e).0)
  {
    var reused := FindReused(w.grants, Sha256(e.token));
    var i := FindRefresh(w.grants, Sha256(e.token), e.now);
    RefreshCases(w, e);
    if reused < |w.grants| {
      RemovalShrinks(w.grants, reused);
      ShrinkKeepsInv(w, RemoveAt(w.grants, reused));
    } else if i == |w.grants| || (e.clientId != "" && w.grants[i].clientId != e.clientId) {
      assert Step(w, e).0 == w;
    } else if !e.isAdmin {
      RemovalShrinks(w.grants, i);
      ShrinkKeepsInv(w, RemoveAt(w.grants, i));
    } else {
      RotationKeepsInv(w, i, e.access, e.refresh, e.now);
    }
  }

  lemma TouchKeepsRows(w: World, id: string, now: int)
    requires TokenInv(w) && BindingsOk(w.grants, w.origins, w.consents)
    ensures var grants := Touched(w.grants, id, now);
            && GrantsOk(grants, w.tokens, w.generations) && CapsOk(grants) && BindingsOk(grants, w.origins, w.consents)
            && DeadStaysDead(w.generations, w.grants, grants)
  {
    var grants := Touched(w.grants, id, now);
    forall k | 0 <= k < |grants| ensures GrantOk(grants[k], w.tokens, w.generations) && Bound(grants[k], w.origins, w.consents) {
      assert GrantOk(w.grants[k], w.tokens, w.generations) && Bound(w.grants[k], w.origins, w.consents);
    }
    SameOwnersKeepCaps(w.grants, grants);
  }

  lemma TouchCases(w: World, tid: nat)
    requires Enabled(w, TouchGrant(tid)) && |w.grants| <= KEEP_ROWS
    ensures Step(w, TouchGrant(tid)).0
         == w.(threads := w.threads - {tid},
               grants := Touched(w.grants, w.threads[tid].grantId, w.threads[tid].now))
  {
  }

  lemma TouchKeepsInv(w: World, tid: nat)
    requires Inv(w) && Enabled(w, TouchGrant(tid))
    ensures Inv(Step(w, TouchGrant(tid)).0) && Extends(w, Step(w, TouchGrant(tid)).0)
  {
    TouchKeepsRows(w, w.threads[tid].grantId, w.threads[tid].now);
    OtherThreadsKeepInv(w, w.clients, w.threads - {tid});
    TouchCases(w, tid);
  }

  lemma RevokeIsFilter(w: World, token: string)
    ensures Step(w, Revoke(token)).0
            == w.(grants := Last(Filter((g: Grant) => g.accessHash != Sha256(token) && g.refreshHash != Sha256(token), w.grants), KEEP_ROWS))
  {
  }

  lemma RevokeGrantIsFilter(w: World, adminId: string, grantId: string)
    ensures var kept := Filter((g: Grant) => !(g.id == grantId && g.adminId == adminId), w.grants);
            Step(w, RevokeGrant(adminId, grantId)).0 == if |kept| == |w.grants| then w else w.(grants := Last(kept, KEEP_ROWS))
  {
  }

  lemma RevocationKeepsInv(w: World, f: Grant -> bool)
    requires Inv(w)
    ensures var v := w.(grants := Last(Filter(f, w.grants), KEEP_ROWS)); Inv(v) && Extends(w, v)
  {
    FilterShrinks(w.grants, f);
    ShrinkKeepsInv(w, Filter(f, w.grants));
  }

  lemma RevokeKeepsInv(w: World, token: string)
    requires Inv(w)
    ensures Inv(Step(w, Revoke(token)).0) && Extends(w, Step(w, Revoke(token)).0)
  {
    RevocationKeepsInv(w, (g: Grant) => g.accessHash != Sha256(token) && g.refreshHash != Sha256(token));
    RevokeIsFilter(w, token);
  }

  lemma RevokeGrantKeepsInv(w: World, adminId: string, grantId: string)
    requires Inv(w)
    ensures Inv(Step(w, RevokeGrant(adminId, grantId)).0) && Extends(w, Step(w, RevokeGrant(adminId, grantId)).0)
  {
    RevocationKeepsInv(w, (g: Grant) => !(g.id == grantId && g.adminId == adminId));
    RevokeGrantIsFilter(w, adminId, grantId);
  }

  lemma ReadersChangeNoRows(w: World, e: Event)
    requires (e.Register? || e.CheckConsent? || e.ReadToken?) && Enabled(w, e)
    ensures var v := Step(w, e).0;
            && v == w.(clients := v.clients, threads := v.threads)
            && forall t :: t in v.threads && v.threads[t].Exchanging? ==> t in w.threads && w.threads[t] == v.threads[t]
  {
    var v := Step(w, e).0;
    match e
    case Register(clientId, redirects, name, now) =>
      assert v == w || v == w.(clients := Last(w.clients + [Client(clientId, redirects, name, now)], MAX_CLIENTS));
    case CheckConsent(tid, form) =>
      assert v == w || v == w.(threads := w.threads[tid := Consenting(form)]);
    case ReadToken(tid, token, now) =>
      var i := FindAccess(w.grants, Sha256(token), now);
      assert v == w || (i < |w.grants| && v == w.(threads := w.threads[tid := Touching(w.grants[i].id, now)]));
  }

  lemma ReadCases(w: World, tid: nat, token: string, now: int)
    ensures var v := ReadTokenStep(w, tid, token, now).0;
            v == w || exists id :: v == w.(threads := w.threads[tid := Touching(id, now)])
  {
  }

  lemma ReadersKeepInv(w: World, e: Event)
    requires Inv(w) && (e.Register? || e.CheckConsent? || e.ReadToken?) && Enabled(w, e)
    ensures Inv(Step(w, e).0) && Extends(w, Step(w, e).0)
  {
    var v := Step(w, e).0;
    ReadersChangeNoRows(w, e);
    OtherThreadsKeepInv(w, v.clients, v.threads);
  }

  /** Every locked section, taken by any thread at any time, keeps the invariant and only extends the history. */
  lemma StepKeepsInv(w: World, e: Event)
    requires Inv(w) && Enabled(w, e)
    ensures Inv(Step(w, e).0) && Extends(w, Step(w, e).0)
  {
    match e
    case Register(_, _, _, _) => ReadersKeepInv(w, e);
    case CheckConsent(_, _) => ReadersKeepInv(w, e);
    case ReadToken(_, _, _) => ReadersKeepInv(w, e);
    case StoreCode(_, _, _, _) => StoreCodeKeepsInv(w, e);
    case TakeCode(_, _, _, _, _, _) => TakeCodeKeepsInv(w, e);
    case StoreGrant(_, _, _, _, _) => StoreGrantKeepsInv(w, e);
    case Refresh(_, _, _, _, _, _) => RefreshKeepsInv(w, e);
    case TouchGrant(tid) => TouchKeepsInv(w, tid);
    case Revoke(token) => RevokeKeepsInv(w, token);
    case RevokeGrant(adminId, grantId) => RevokeGrantKeepsInv(w, adminId, grantId);
  }
}
