/** Registered clients of the admin OAuth server: which redirect URIs they may have, and how a consent is checked
    against them. */
module AdminOAuthClients {
  import opened Seqs
  import opened AdminOAuth
  import opened AdminOAuthInvariant
  import opened AdminOAuthRuns

  // ------------------------------------------------------------ which redirect URIs are allowed --

  ghost predicate Local(host: string) { host == "localhost" || host == "127.0.0.1" }

  /** An http address of this machine whose path ends with the callback. */
  ghost predicate LocalCallback(u: Uri) {
    u.scheme == "http" && Local(u.host) && exists prefix: string :: u.path == prefix + "/callback"
  }

  /** One of the four names, or a name below one of the two domains. */
  ghost predicate VendorHost(host: string) {
    || host == "claude.ai" || host == "www.claude.ai" || host == "claude.com" || host == "www.claude.com"
    || (exists l: string :: host == l + ".claude.ai") || (exists l: string :: host == l + ".anthropic.com")
  }

  ghost predicate ByParts(u: Uri) { LocalCallback(u) || (u.scheme == "https" && VendorHost(u.host)) }

  ghost predicate SamePath(p: string, q: string) { p == q || (p == "" && q == "/") || (p == "/" && q == "") }

  /** The same text, or the same local path under any port. */
  ghost predicate Fits(registered: Uri, actual: Uri) {
    || registered.text == actual.text
    || (&& registered.scheme == "http" && actual.scheme == "http" && Local(registered.host) && Local(actual.host)
        && SamePath(registered.path, actual.path))
  }

  lemma EndsWithIs(text: string, tail: string)
    ensures EndsWith(text, tail) <==> exists head: string :: text == head + tail
  {
    if EndsWith(text, tail) {
      assert text == text[..|text| - |tail|] + tail;
    }
  }

  lemma AllowedIsByParts(u: Uri)
    ensures RedirectAllowed(u) <==> ByParts(u)
  {
    EndsWithIs(u.path, "/callback");
    EndsWithIs(u.host, ".claude.ai");
    EndsWithIs(u.host, ".anthropic.com");
    CallbackIsLong(u.path);
  }

  lemma CallbackIsLong(path: string)
    ensures EndsWith(if path == "" then "/" else path, "/callback") <==> EndsWith(path, "/callback")
  {
  }

  lemma MatchingIsFitting(u: Uri, v: Uri)
    ensures RedirectMatches(u, v) <==> Fits(u, v)
  {
  }

  /** A registration succeeds exactly with one to five redirects that are all of these forms; then the client is the
      newest of the stored ones, of which there are no more than 80. */
  lemma RegistrationIsExact(w: World, e: Event)
    requires e.Register? && Enabled(w, e)
    ensures var (v, reply) := Step(w, e);
            && (reply == Registered(e.clientId) <==> 1 <= |e.redirects| <= 5 && forall u :: u in e.redirects ==> ByParts(u))
            && (reply == Refused(MissingRedirect) <==> e.redirects == [])
            && (reply.Registered? || reply.Refused?) && (reply.Refused? ==> v == w)
            && (reply.Registered? ==>
                  var all := w.clients + [Client(e.clientId, e.redirects, e.name, e.now)];
                  v == w.(clients := if |all| <= 80 then all else all[|all| - 80..]))
  {
    forall u ensures RedirectAllowed(u) <==> ByParts(u) { AllowedIsByParts(u); }
  }

  /** So a host that only ends like one of the names, without the dot before it, is refused, and so is any other. */
  lemma LookAlikesAreRefused(w: World, e: Event, u: Uri, x: string)
    requires e.Register? && Enabled(w, e) && u in e.redirects && u.scheme == "https"
    requires u.host == x + "claude.ai" && x != "" && x[|x| - 1] != '.'
    ensures Step(w, e).1.Refused? && Step(w, e).0 == w
  {
    RegistrationIsExact(w, e);
    LookAlike(u.host, x);
    assert !ByParts(u);
  }

  lemma LookAlike(host: string, x: string)
    requires host == x + "claude.ai" && x != "" && x[|x| - 1] != '.'
    ensures !VendorHost(host)
  {
    var n := |host|;
    forall l: string ensures host != l + ".claude.ai" && host != l + ".anthropic.com" {
      DotBefore(l, ".claude.ai", 10);
      DotBefore(l, ".anthropic.com", 1);
    }
    assert host[n - 1] == 'i' && host[n - 10] == x[|x| - 1];
  }

  lemma DotBefore(l: string, tail: string, k: nat)
    requires 1 <= k <= |tail|
    ensures |l + tail| >= k && (l + tail)[|l + tail| - k] == tail[|tail| - k]
  {
  }

  // ------------------------------------------------------------ back to the registration --

  /** No client is new, and no thread waits for a consent that did not wait before. */
  ghost predicate KeepsConsents(w: World, v: World) {
    && v.clients == w.clients
    && forall t :: t in v.threads && v.threads[t].Consenting? ==> t in w.threads && w.threads[t] == v.threads[t]
  }

  lemma CodesKeepConsents(w: World, e: Event)
    requires (e.StoreCode? || e.TakeCode?) && Enabled(w, e) && |w.codes| <= KEEP_ROWS
    ensures KeepsConsents(w, Step(w, e).0)
  {
    if e.TakeCode? { TakeCodeCases(w, e); }
  }

  lemma StoreGrantKeepsConsents(w: World, e: Event)
    requires e.StoreGrant? && Enabled(w, e)
    ensures KeepsConsents(w, Step(w, e).0)
  {
    StoreGrantCases(w, e);
  }

  lemma ReadersKeepConsents(w: World, e: Event)
    requires (e.TouchGrant? || e.ReadToken?) && Enabled(w, e)
    ensures KeepsConsents(w, Step(w, e).0)
  {
    if e.TouchGrant? { TouchKeepsConsents(w, e); } else { ReadKeepsConsents(w, e); }
  }

  lemma ReadKeepsConsents(w: World, e: Event)
    requires e.ReadToken? && Enabled(w, e)
    ensures KeepsConsents(w, Step(w, e).0)
  {
    ReadCases(w, e.tid, e.token, e.now);
  }

  lemma TouchKeepsConsents(w: World, e: Event)
    requires e.TouchGrant? && Enabled(w, e)
    ensures KeepsConsents(w, Step(w, e).0)
  {
  }

  lemma RevocationsKeepConsents(w: World, e: Event)
    requires (e.Revoke? || e.RevokeGrant?) && Enabled(w, e)
    ensures KeepsConsents(w, Step(w, e).0)
  {
    if e.Revoke? {
      RevokeIsFilter(w, e.token);
    } else {
      RevokeGrantIsFilter(w, e.adminId, e.grantId);
    }
  }

  lemma OthersKeepConsents(w: World, e: Event)
    requires Enabled(w, e) && !e.CheckConsent? && !e.Register? && |w.codes| <= KEEP_ROWS
    ensures KeepsConsents(w, Step(w, e).0)
  {
    if e.StoreCode? || e.TakeCode? {
      CodesKeepConsents(w, e);
    } else if e.Refresh? {
      RefreshTouchesGrantsOnly(w, e.token, e.clientId, e.isAdmin, e.access, e.refresh, e.now);
    } else if e.Revoke? || e.RevokeGrant? {
      RevocationsKeepConsents(w, e);
    } else if e.StoreGrant? {
      StoreGrantKeepsConsents(w, e);
    } else {
      ReadersKeepConsents(w, e);
    }
  }

  /** A consent waits only behind a checked form. */
  lemma ConsentingByChecking(w: World, e: Event, t: nat)
    requires Enabled(w, e) && |w.codes| <= KEEP_ROWS
    requires t in Step(w, e).0.threads && Step(w, e).0.threads[t].Consenting?
    ensures var waiting := Step(w, e).0.threads[t];
            || (t in w.threads && w.threads[t] == waiting)
            || (e == CheckConsent(t, waiting.form) && Validate(w.clients, waiting.form).None?)
  {
    if e.CheckConsent? {
      assert Step(w, e) == CheckConsentStep(w, e.tid, e.form);
    } else if e.Register? {
      assert Step(w, e) == RegisterStep(w, e.clientId, e.redirects, e.name, e.now);
    } else {
      OthersKeepConsents(w, e);
    }
  }

  lemma RegisteredOrKept(w: World, clientId: string, redirects: seq<Uri>, name: string, now: int, c: Client)
    requires c in RegisterStep(w, clientId, redirects, name, now).0.clients && c !in w.clients
    ensures c == Client(clientId, redirects, name, now) && forall u :: u in redirects ==> ByParts(u)
  {
    var all := w.clients + [Client(clientId, redirects, name, now)];
    forall u ensures RedirectAllowed(u) <==> ByParts(u) { AllowedIsByParts(u); }
    assert forall x :: x in Last(all, MAX_CLIENTS) ==> x in all;
  }

  /** A client is stored only by its registration, with redirects that are all allowed. */
  lemma ClientByRegistering(w: World, e: Event, c: Client)
    requires Enabled(w, e) && |w.codes| <= KEEP_ROWS && c in Step(w, e).0.clients && c !in w.clients
    ensures e == Register(c.id, c.redirects, c.name, c.createdAt) && forall u :: u in c.redirects ==> ByParts(u)
  {
    if e.Register? {
      assert Step(w, e) == RegisterStep(w, e.clientId, e.redirects, e.name, e.now);
      RegisteredOrKept(w, e.clientId, e.redirects, e.name, e.now, c);
    } else if !e.CheckConsent? {
      OthersKeepConsents(w, e);
    }
  }

  lemma {:induction false} ConsentHasCheck(ws: seq<World>, es: seq<Event>, k: nat, t: nat) returns (h: nat)
    requires IsRun(ws, es) && k < |ws| && t in ws[k].threads && ws[k].threads[t].Consenting?
    ensures h < k && es[h] == CheckConsent(t, ws[k].threads[t].form)
    ensures Validate(ws[h].clients, ws[k].threads[t].form).None?
  {
    h := k - 1;
    RunKeepsInv(ws, es, h);
    ConsentingByChecking(ws[h], es[h], t);
    if t in ws[h].threads && ws[h].threads[t] == ws[k].threads[t] {
      h := ConsentHasCheck(ws, es, h, t);
    }
  }

  lemma {:induction false} ClientHasRegistration(ws: seq<World>, es: seq<Event>, k: nat, c: Client) returns (r: nat)
    requires IsRun(ws, es) && k < |ws| && c in ws[k].clients
    ensures r < k && es[r] == Register(c.id, c.redirects, c.name, c.createdAt)
    ensures forall u :: u in c.redirects ==> ByParts(u)
  {
    r := k - 1;
    RunKeepsInv(ws, es, r);
    if c in ws[r].clients {
      r := ClientHasRegistration(ws, es, r, c);
    } else {
      ClientByRegistering(ws[r], es[r], c);
    }
  }

  /** A validated form names a stored client, one of whose redirects its own redirect matches. */
  lemma ValidatedClient(clients: seq<Client>, form: Form) returns (c: Client)
    requires Validate(clients, form).None?
    ensures c in clients && c.id == form.clientId && ByParts(form.redirect)
    ensures exists u :: u in c.redirects && Fits(u, form.redirect)
  {
    c := clients[FindClient(clients, form.clientId)];
    AllowedIsByParts(form.redirect);
    var u :| u in c.redirects && RedirectMatches(u, form.redirect);
    MatchingIsFitting(u, form.redirect);
  }

  /** And every grant goes on back to the registration of its client: step `r` registered it, step `h` checked the form
      that the consent of step `i` accepted, and the redirect URI matches one of the registered ones, all allowed. */
  lemma GrantTracesToRegistration(ws: seq<World>, es: seq<Event>, k: nat, g: Grant) returns (r: nat, h: nat, i: nat, j: nat)
    requires IsRun(ws, es) && k < |ws| && g in ws[k].grants
    ensures r < h < i < j < k && es[i].StoreCode? && es[j].TakeCode? && es[j].clientId == g.clientId
    ensures es[r].Register? && es[r].clientId == g.clientId
    ensures es[h].CheckConsent? && es[h].tid == es[i].tid && es[h].form.redirect.text == es[j].redirectUri
    ensures ByParts(es[h].form.redirect)
    ensures exists u :: u in es[r].redirects && ByParts(u) && Fits(u, es[h].form.redirect)
  {
    i, j := GrantTracesToConsent(ws, es, k, g);
    var form := ws[i].threads[es[i].tid].form;
    h := ConsentHasCheck(ws, es, i, es[i].tid);
    var c := ValidatedClient(ws[h].clients, form);
    r := ClientHasRegistration(ws, es, h, c);
  }


  // ------------------------------------------------------------------ checking a consent --

  ghost predicate ClientsDistinct(clients: seq<Client>) {
    forall i, j :: 0 <= i < j < |clients| ==> clients[i].id != clients[j].id
  }

  lemma {:induction false} RunKeepsClients(ws: seq<World>, es: seq<Event>, k: nat)
    requires IsRun(ws, es) && k < |ws|
    ensures ClientsDistinct(ws[k].clients) && |ws[k].clients| <= 80
  {
    if k > 0 {
      RunKeepsClients(ws, es, k - 1);
      RunKeepsInv(ws, es, k - 1);
      ClientsAfter(ws[k - 1], es[k - 1]);
    }
  }

  lemma ClientsAfter(w: World, e: Event)
    requires Enabled(w, e) && ClientsDistinct(w.clients) && |w.clients| <= 80 && |w.codes| <= KEEP_ROWS
    ensures ClientsDistinct(Step(w, e).0.clients) && |Step(w, e).0.clients| <= 80
  {
    if e.Register? {
      RegisteringKeepsDistinct(w, e, Step(w, e).0.clients);
    } else if !e.CheckConsent? {
      OthersKeepConsents(w, e);
    }
  }

  lemma RegisteringKeepsDistinct(w: World, e: Event, after: seq<Client>)
    requires e.Register? && Enabled(w, e) && ClientsDistinct(w.clients) && |w.clients| <= 80
    requires after == Step(w, e).0.clients
    ensures ClientsDistinct(after) && |after| <= 80
  {
    var all := w.clients + [Client(e.clientId, e.redirects, e.name, e.now)];
    RegistrationIsExact(w, e);
    assert ClientsDistinct(all);
    assert after == w.clients || after == all || after == all[|all| - 80..];
  }

  ghost predicate AsksForPkce(form: Form) {
    (form.challengeMethod == "" || form.challengeMethod == "S256") && form.challenge != Opaque("")
  }

  ghost predicate Stored(clients: seq<Client>, id: string) { id != "" && exists c :: c in clients && c.id == id }

  /** The redirect is of an allowed form and fits one that a stored client with this id registered. */
  ghost predicate RedirectFits(clients: seq<Client>, form: Form) {
    && ByParts(form.redirect)
    && exists c, u :: c in clients && c.id == form.clientId && u in c.redirects && Fits(u, form.redirect)
  }

  lemma FoundClient(clients: seq<Client>, form: Form)
    requires ClientsDistinct(clients) && form.clientId != ""
    ensures var i := FindClient(clients, form.clientId);
            && (Stored(clients, form.clientId) <==> i < |clients|)
            && (i < |clients| ==>
                  (RedirectFits(clients, form)
                   <==> RedirectAllowed(form.redirect) && exists u :: u in clients[i].redirects && RedirectMatches(u, form.redirect)))
  {
    AllowedIsByParts(form.redirect);
    forall u ensures RedirectMatches(u, form.redirect) <==> Fits(u, form.redirect) { MatchingIsFitting(u, form.redirect); }
  }

  /** Which answer a consent request gets, in every run: each refusal exactly when its own test is the first that fails,
      and acceptance exactly when none does. Then the checked form waits for the login; nothing else changes. */
  lemma ConsentIsExact(ws: seq<World>, es: seq<Event>, k: nat)
    requires IsRun(ws, es) && k < |es| && es[k].CheckConsent?
    ensures var (form, clients, reply) := (es[k].form, ws[k].clients, Step(ws[k], es[k]).1);
            var asks, pkce, known := form.responseType == "code", AsksForPkce(form), Stored(clients, form.clientId);
            && (reply == Refused(UnsupportedResponseType) <==> !asks)
            && (reply == Refused(PkceRequired) <==> asks && !pkce)
            && (reply == Refused(UnknownClient) <==> asks && pkce && !known)
            && (reply == Refused(RedirectMismatch) <==> asks && pkce && known && !RedirectFits(clients, form))
            && (reply == Refused(BadResource) <==> asks && pkce && known && RedirectFits(clients, form) && !form.resourceOk)
            && (reply == ConsentAccepted <==> asks && pkce && known && RedirectFits(clients, form) && form.resourceOk)
    ensures ws[k + 1] == if Step(ws[k], es[k]).1 == ConsentAccepted
                         then ws[k].(threads := ws[k].threads[es[k].tid := Consenting(es[k].form)]) else ws[k]
  {
    RunKeepsClients(ws, es, k);
    if es[k].form.clientId != "" {
      FoundClient(ws[k].clients, es[k].form);
    }
  }
}
