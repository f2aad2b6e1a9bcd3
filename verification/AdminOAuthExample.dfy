/** A run in which a refresh token is presented that was rotated away two rotations ago: nothing is revoked, although
    docs/admin-mcp-oauth.md says that the grant goes. */
module AdminOAuthExample {
  import opened Seqs
  import opened Texts
  import opened AdminOAuth
  import opened AdminOAuthRuns

  const CALLBACK := Uri("http://localhost/callback", "http", "localhost", "/callback")
  const ASKED := Form("code", "S256", S256("v"), "c", CALLBACK, true)
  const CLIENT := Client("c", [CALLBACK], "", 0)
  const ROW := CodeRow(Sha256("k"), CODE_TTL_SEC, "c", "http://localhost/callback", S256("v"), "a")
  const AGREED := Consent("c", "http://localhost/callback", S256("v"), "a", 0)

  function At(c: char): string { ACCESS_PREFIX + [c] }

  function Rt(c: char): string { REFRESH_PREFIX + [c] }

  lemma {:induction false} StartsWithHead(head: string, tail: string)
    ensures StartsWith(head + tail, head)
  {
    if head != "" {
      StartsWithHead(head[1..], tail);
      assert (head + tail)[1..] == head[1..] + tail;
    }
  }

  lemma TokensDiffer(c: char, d: char)
    ensures At(c) != Rt(d) && (At(c) == At(d) ==> c == d) && (Rt(c) == Rt(d) ==> c == d)
    ensures StartsWith(At(c), ACCESS_PREFIX) && StartsWith(Rt(c), REFRESH_PREFIX)
  {
    StartsWithHead(ACCESS_PREFIX, [c]);
    StartsWithHead(REFRESH_PREFIX, [c]);
    assert At(c)[4] == 'a' && Rt(d)[4] == 'r' && At(c)[7] == Rt(c)[7] == c && At(d)[7] == Rt(d)[7] == d;
  }

  /** One refresh token is presented, the next pair of tokens drawn. */
  function Exchanges(now: char, next: char): Event { Refresh(Rt(now), "c", true, At(next), Rt(next), 0) }

  /** An admin connects a client, which refreshes twice; then its first refresh token is presented once more. */
  function Happens(): (es: seq<Event>)
    ensures |es| == 8
  {
    [Register("c", [CALLBACK], "", 0), CheckConsent(0, ASKED), StoreCode(0, Some("a"), "k", 0),
     TakeCode(0, "k", "http://localhost/callback", "c", "v", 0), StoreGrant(0, true, "g", At('0'), Rt('0')),
     Exchanges('0', '1'), Exchanges('1', '2'), Exchanges('0', '3')]
  }

  function WithClient(): World { Empty.(clients := [CLIENT]) }

  function Checked(): World { WithClient().(threads := map[0 := Consenting(ASKED)]) }

  function Agreed(): World { WithClient().(codes := [ROW], consents := map["k" := AGREED]) }

  function Taken(): World {
    Agreed().(codes := [], spent := {"k"}, takers := map["k" := 0], threads := map[0 := Exchanging(ROW, "v", 0)])
  }

  function Connected(): World { Granted(Taken(), 0, "g", At('0'), Rt('0')) }

  lemma Asks()
    ensures Enabled(Empty, Happens()[0]) && Step(Empty, Happens()[0]).0 == WithClient()
    ensures Enabled(WithClient(), Happens()[1]) && Step(WithClient(), Happens()[1]).0 == Checked()
  {
  }

  lemma Consents()
    ensures Enabled(Checked(), Happens()[2]) && Step(Checked(), Happens()[2]).0 == Agreed()
  {
    assert map[0 := Consenting(ASKED)] - {0} == map[];
  }

  lemma Takes()
    ensures Enabled(Agreed(), Happens()[3]) && Step(Agreed(), Happens()[3]).0 == Taken()
  {
  }

  function FirstGrant(): Grant {
    Grant("g", "a", "c", "AI klient", Sha256(At('0')), ACCESS_TTL_SEC, Sha256(Rt('0')), REFRESH_TTL_SEC, NoDigest, 0, 0)
  }

  lemma OneGrantStays(g: Grant)
    ensures AddGrant([], g) == [g]
  {
    assert [] + [g] == [g];
  }

  lemma Connects()
    ensures Enabled(Taken(), Happens()[4]) && Step(Taken(), Happens()[4]).0 == Connected()
    ensures Connected().grants == [FirstGrant()]
  {
    TokensDiffer('0', '0');
    OneGrantStays(FirstGrant());
    IsFirstGrant();
  }

  lemma IsFirstGrant()
    ensures NewGrant([CLIENT], Exchanging(ROW, "v", 0), "g", At('0'), Rt('0')) == FirstGrant()
  {
  }

  /** A world that holds one grant and knows its tokens. */
  ghost predicate Holds(w: World, g: Grant, known: set<string>) {
    w.grants == [g] && g.id in w.generations && w.ledger.Keys == known
  }

  function Tokens(last: char): set<string> {
    (set c | '0' <= c <= last :: At(c)) + (set c | '0' <= c <= last :: Rt(c))
  }

  lemma TokensOfOne()
    ensures Tokens('0') == {At('0'), Rt('0')}
  {
  }

  lemma Knows()
    ensures Holds(Connected(), FirstGrant(), Tokens('0'))
  {
    Connects();
    TokensOfOne();
  }

  /** Presenting the current refresh token rotates the grant. */
  lemma Rotates(w: World, g: Grant, known: set<string>, now: char, next: char)
    requires Holds(w, g, known) && known == Tokens(now)
    requires g.refreshHash == Sha256(Rt(now)) && g.refreshExp > 0 && g.clientId == "c" && g.prevRefreshHash != Sha256(Rt(now))
    requires now < next
    ensures var e := Exchanges(now, next);
            && Enabled(w, e) && Step(w, e).1 == TokensIssued(g.id, At(next), Rt(next))
            && Holds(Step(w, e).0, Rotated(g, At(next), Rt(next), 0), known + {At(next), Rt(next)})
  {
    TokensDiffer(next, next);
    forall c | '0' <= c <= now ensures At(c) != At(next) && Rt(c) != Rt(next) && Rt(c) != At(next) && At(c) != Rt(next) {
      TokensDiffer(c, next);
      TokensDiffer(next, c);
    }
  }

  lemma TokensOfTwo()
    ensures Tokens('1') == Tokens('0') + {At('1'), Rt('1')}
  {
  }

  /** The grant after the first and after the second rotation. */
  function Later(g: Grant, next: char): Grant { Rotated(g, At(next), Rt(next), 0) }

  lemma LaterHashes(g: Grant, next: char)
    ensures var h := Later(g, next);
            && h.id == g.id && h.clientId == g.clientId && h.refreshHash == Sha256(Rt(next))
            && h.prevRefreshHash == g.refreshHash && h.refreshExp == REFRESH_TTL_SEC
  {
  }

  lemma RotatesAgain(w: World, g: Grant, known: set<string>) returns (v: World)
    requires Holds(w, g, known) && known == Tokens('1') && g.clientId == "c" && g.refreshExp > 0
    requires g.refreshHash == Sha256(Rt('1')) && g.prevRefreshHash == Sha256(Rt('0'))
    ensures Enabled(w, Exchanges('1', '2')) && v == Step(w, Exchanges('1', '2')).0
    ensures Holds(v, Later(g, '2'), known + {At('2'), Rt('2')})
  {
    TokensDiffer('0', '1');
    Rotates(w, g, known, '1', '2');
    v := Step(w, Exchanges('1', '2')).0;
  }

  lemma RotatesFirst(w: World, g: Grant, known: set<string>) returns (v: World)
    requires Holds(w, g, known) && known == Tokens('0') && g.clientId == "c" && g.refreshExp > 0
    requires g.refreshHash == Sha256(Rt('0')) && g.prevRefreshHash == NoDigest
    ensures Enabled(w, Exchanges('0', '1')) && v == Step(w, Exchanges('0', '1')).0
    ensures Step(w, Exchanges('0', '1')).1 == TokensIssued(g.id, At('1'), Rt('1'))
    ensures Holds(v, Later(g, '1'), Tokens('1'))
  {
    Rotates(w, g, known, '0', '1');
    TokensOfTwo();
    v := Step(w, Exchanges('0', '1')).0;
  }

  /** A token older than the stored ones does nothing. */
  lemma OldestIsInert(w: World, g: Grant, known: set<string>, e: Event)
    requires Holds(w, g, known) && e.Refresh? && FreshPair(w, e.access, e.refresh)
    requires g.refreshHash != Sha256(e.token) && g.prevRefreshHash != Sha256(e.token)
    ensures Enabled(w, e) && Step(w, e) == (w, Refused(InvalidGrant))
  {
  }

  lemma FarTokens()
    ensures var known := Tokens('1') + {At('2'), Rt('2')};
            At('3') !in known && Rt('3') !in known
  {
    forall c | '0' <= c <= '2' ensures At(c) != At('3') && Rt(c) != Rt('3') && At(c) != Rt('3') && Rt(c) != At('3') {
      TokensDiffer(c, '3');
      TokensDiffer('3', c);
    }
  }

  lemma OldestIsRefused(w: World, g: Grant)
    requires Holds(w, g, Tokens('1') + {At('2'), Rt('2')})
    requires g.refreshHash == Sha256(Rt('2')) && g.prevRefreshHash == Sha256(Rt('1'))
    ensures Enabled(w, Exchanges('0', '3')) && Step(w, Exchanges('0', '3')) == (w, Refused(InvalidGrant))
  {
    TokensDiffer('0', '1');
    TokensDiffer('0', '2');
    TokensDiffer('3', '3');
    FarTokens();
    OldestIsInert(w, g, Tokens('1') + {At('2'), Rt('2')}, Exchanges('0', '3'));
  }

  ghost predicate Goes(w: World, e: Event, v: World) { Enabled(w, e) && v == Step(w, e).0 }

  lemma Grow(ws: seq<World>, es: seq<Event>, e: Event, v: World)
    requires IsRun(ws, es) && Goes(ws[|ws| - 1], e, v)
    ensures IsRun(ws + [v], es + [e])
  {
    var vs, fs := ws + [v], es + [e];
    forall i | 0 <= i < |fs| ensures Enabled(vs[i], fs[i]) && vs[i + 1] == Step(vs[i], fs[i]).0 {
      if i < |es| {
        assert vs[i] == ws[i] && vs[i + 1] == ws[i + 1] && fs[i] == es[i];
      } else {
        assert vs[i] == ws[|ws| - 1] && fs[i] == e;
      }
    }
  }

  /** The run after one more of the events. */
  lemma Taking(before: seq<World>, es: seq<Event>, i: nat, v: World) returns (ws: seq<World>)
    requires i < |es| && IsRun(before, es[..i]) && Goes(before[i], es[i], v)
    ensures IsRun(ws, es[..i + 1]) && ws == before + [v]
  {
    ws := before + [v];
    Grow(before, es[..i], es[i], v);
    assert es[..i + 1] == es[..i] + [es[i]];
  }

  lemma RunToAgreed() returns (ws: seq<World>)
    ensures IsRun(ws, Happens()[..3]) && ws[3] == Agreed()
  {
    Asks();
    Consents();
    ws := [Empty];
    ws := Taking(ws, Happens(), 0, WithClient());
    ws := Taking(ws, Happens(), 1, Checked());
    ws := Taking(ws, Happens(), 2, Agreed());
  }

  lemma RunToTaken() returns (ws: seq<World>)
    ensures IsRun(ws, Happens()[..4]) && ws[4] == Taken()
  {
    ws := RunToAgreed();
    Takes();
    ws := Taking(ws, Happens(), 3, Taken());
  }

  lemma RunToConnected() returns (ws: seq<World>)
    ensures IsRun(ws, Happens()[..5]) && Holds(ws[5], FirstGrant(), Tokens('0'))
  {
    ws := RunToTaken();
    Connects();
    Knows();
    ws := Taking(ws, Happens(), 4, Connected());
  }

  lemma RefreshEvents()
    ensures Happens()[5] == Exchanges('0', '1') && Happens()[6] == Exchanges('1', '2') && Happens()[7] == Exchanges('0', '3')
  {
  }

  lemma RunToOnce(before: seq<World>, es: seq<Event>, g: Grant) returns (ws: seq<World>)
    requires |es| == 8 && es[5] == Exchanges('0', '1') && IsRun(before, es[..5])
    requires Holds(before[5], g, Tokens('0')) && g.clientId == "c" && g.refreshExp > 0
    requires g.refreshHash == Sha256(Rt('0')) && g.prevRefreshHash == NoDigest
    ensures IsRun(ws, es[..6]) && Holds(ws[6], Later(g, '1'), Tokens('1'))
    ensures Step(ws[5], es[5]).1 == TokensIssued(g.id, At('1'), Rt('1'))
  {
    var once := RotatesFirst(before[5], g, Tokens('0'));
    assert Goes(before[5], es[5], once);
    ws := Taking(before, es, 5, once);
    assert ws[5] == before[5] && ws[6] == once;
  }

  lemma RunToTwice(before: seq<World>, es: seq<Event>, g: Grant) returns (ws: seq<World>)
    requires |es| == 8 && es[6] == Exchanges('1', '2') && IsRun(before, es[..6])
    requires Holds(before[6], g, Tokens('1')) && g.clientId == "c" && g.refreshExp > 0
    requires g.refreshHash == Sha256(Rt('1')) && g.prevRefreshHash == Sha256(Rt('0'))
    ensures IsRun(ws, es[..7]) && Holds(ws[7], Later(g, '2'), Tokens('1') + {At('2'), Rt('2')}) && ws[5] == before[5]
  {
    var twice := RotatesAgain(before[6], g, Tokens('1'));
    assert Goes(before[6], es[6], twice);
    ws := Taking(before, es, 6, twice);
    assert ws[5] == before[5] && ws[7] == twice;
  }

  lemma OldestStays(w: World, g: Grant, e: Event)
    requires Holds(w, g, Tokens('1') + {At('2'), Rt('2')}) && e == Exchanges('0', '3')
    requires g.refreshHash == Sha256(Rt('2')) && g.prevRefreshHash == Sha256(Rt('1'))
    ensures Goes(w, e, w) && w.grants != [] && Step(w, e).1 == Refused(InvalidGrant)
  {
    OldestIsRefused(w, g);
  }

  lemma RunToReuse(before: seq<World>, es: seq<Event>, g: Grant) returns (ws: seq<World>)
    requires |es| == 8 && es[7] == Exchanges('0', '3') && IsRun(before, es[..7])
    requires Holds(before[7], g, Tokens('1') + {At('2'), Rt('2')})
    requires g.refreshHash == Sha256(Rt('2')) && g.prevRefreshHash == Sha256(Rt('1'))
    ensures IsRun(ws, es[..8]) && ws[5] == before[5] && ws[8].grants == ws[7].grants != []
    ensures Step(ws[7], es[7]).1 == Refused(InvalidGrant)
  {
    OldestStays(before[7], g, es[7]);
    ws := Taking(before, es, 7, before[7]);
    TakenFrom(before, ws, before[7], 5);
    TakenFrom(before, ws, before[7], 7);
  }

  lemma TakenFrom(before: seq<World>, ws: seq<World>, v: World, i: nat)
    requires ws == before + [v] && i < |before|
    ensures ws[i] == before[i] && ws[|before|] == v
  {
  }

  /** The last three events of the run. */
  ghost predicate Reuses(es: seq<Event>) {
    |es| == 8 && es[5] == Exchanges('0', '1') && es[6] == Exchanges('1', '2') && es[7] == Exchanges('0', '3')
  }

  lemma WholeRun(ws: seq<World>, es: seq<Event>)
    requires |es| == 8 && IsRun(ws, es[..8])
    ensures IsRun(ws, es)
  {
    assert es[..8] == es;
  }

  lemma RunThroughReuse(before: seq<World>, es: seq<Event>, g: Grant) returns (ws: seq<World>)
    requires Reuses(es) && IsRun(before, es[..5]) && Holds(before[5], g, Tokens('0'))
    requires g.clientId == "c" && g.refreshExp > 0 && g.refreshHash == Sha256(Rt('0')) && g.prevRefreshHash == NoDigest
    ensures IsRun(ws, es) && ws[8].grants == ws[7].grants != []
    ensures Step(ws[5], es[5]).1 == TokensIssued(g.id, At('1'), Rt('1')) && Step(ws[7], es[7]).1 == Refused(InvalidGrant)
  {
    LaterHashes(g, '1');
    LaterHashes(Later(g, '1'), '2');
    ws := RunToOnce(before, es, g);
    ws := RunToTwice(ws, es, Later(g, '1'));
    ws := RunToReuse(ws, es, Later(Later(g, '1'), '2'));
    WholeRun(ws, es);
  }

  /** The run: the grant survives the reuse of a token it has rotated away. */
  lemma ReuseRevokesNothing() returns (ws: seq<World>)
    ensures IsRun(ws, Happens()) && Happens()[7].token == Happens()[5].token
    ensures Step(ws[5], Happens()[5]).1 == TokensIssued("g", At('1'), Rt('1'))
    ensures Step(ws[7], Happens()[7]).1 == Refused(InvalidGrant) && ws[8].grants == ws[7].grants != []
  {
    RefreshEvents();
    ws := RunToConnected();
    ws := RunThroughReuse(ws, Happens(), FirstGrant());
  }
}
