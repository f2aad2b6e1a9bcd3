/** What each call of the agent registration answers, and how long a claim is open, counted over whole runs from the call
    that made it or renewed its code. */
module AgentClaimsExact {
  import opened Seqs
  import opened AgentClaims

  /** A stored claim that can still be approved. */
  ghost predicate Open(r: Row, now: int) { r.exp > now && r.user == "" }

  lemma FirstOf(p: Row -> bool, rows: seq<Row>, r: Row)
    requires r in rows && p(r) && forall s :: s in rows && p(s) ==> s == r
    ensures First(p, rows).Some? && rows[First(p, rows).value] == r
  {
  }

  lemma NoneOf(p: Row -> bool, rows: seq<Row>)
    requires forall s :: s in rows ==> !p(s)
    ensures First(p, rows).None?
  {
  }

  // ------------------------------------------------------------------ each call --

  /** A poll answers by the claim's own row: approved, and then the row goes, once a user has approved it; otherwise
      expired or pending by its time; and expired when there is none. */
  lemma PollIsExact(w: World, e: Event)
    requires Inv(w) && e.Poll?
    ensures forall r :: r in w.rows && r.token == e.token ==>
              Step(w, e) == if r.user != "" then (w.(rows := Filter((s: Row) => s.token != e.token, w.rows)), Approved(r))
                            else (w, if r.exp <= e.now then Expired else Pending)
    ensures NoToken(w.rows, e.token) ==> Step(w, e) == (w, Expired)
  {
    forall r | r in w.rows && r.token == e.token
      ensures Step(w, e) == if r.user != "" then (w.(rows := Filter((s: Row) => s.token != e.token, w.rows)), Approved(r))
                            else (w, if r.exp <= e.now then Expired else Pending)
    {
      forall s | s in w.rows && s.token == e.token ensures s == r { AtMostOneRow(w, r, s); }
      FirstOf(OfToken(e.token), w.rows, r);
      var i := First(OfToken(e.token), w.rows).value;
      WithoutToken(w.rows, e.token, i);
    }
    if NoToken(w.rows, e.token) { NoneOf(OfToken(e.token), w.rows); }
  }

  lemma WithoutToken(rows: seq<Row>, token: Token, i: nat)
    requires Distinct(rows) && i < |rows| && rows[i].token == token
    ensures RemoveAt(rows, i) == Filter((s: Row) => s.token != token, rows)
  {
    FilterAllButOne((s: Row) => s.token != token, rows, i);
  }

  /** A refresh succeeds exactly for an open claim of that token. It gives it the new code, fifteen more minutes from now
      and, if one is given, the new e-mail hint, in its place; every other row stays. Otherwise nothing changes. */
  lemma RefreshIsExact(w: World, e: Event)
    requires Inv(w) && e.Refresh? && Enabled(w, e)
    ensures (exists r :: r in w.rows && r.token == e.token && Open(r, e.now)) <==> Step(w, e).1.Claimed?
    ensures !Step(w, e).1.Claimed? ==> Step(w, e).1 == ExpiredToken && Step(w, e).0.rows == w.rows
    ensures Step(w, e).1.Claimed? ==>
              && |Step(w, e).0.rows| == |w.rows|
              && forall k :: 0 <= k < |w.rows| ==>
                   Step(w, e).0.rows[k]
                   == if w.rows[k].token != e.token then w.rows[k]
                      else w.rows[k].(code := e.code, exp := e.now + 900, email := if e.email == "" then w.rows[k].email else Hint(e.email))
    ensures Step(w, e).1.Claimed? ==> Step(w, e).1.row in Step(w, e).0.rows && Step(w, e).1.row.token == e.token
  {
    match First(OpenToken(e.token, e.now), w.rows)
    case None =>
    case Some(i) =>
      assert w.rows[i] in w.rows && Open(w.rows[i], e.now);
      forall k | 0 <= k < |w.rows| && w.rows[k].token == e.token ensures k == i { assert w.rows[k] in w.rows; }
      assert Step(w, e).0.rows[i] == Step(w, e).1.row;
  }

  /** A code finds exactly the open claim that carries it. */
  lemma FindIsExact(w: World, e: Event)
    requires Inv(w) && e.Find?
    ensures Step(w, e).0 == w
    ensures forall r :: Step(w, e).1 == Found(Some(r)) <==> r in w.rows && r.code == e.code && Open(r, e.now)
    ensures (forall r :: r in w.rows ==> !(r.code == e.code && Open(r, e.now))) ==> Step(w, e).1 == Found(None)
  {
    match First(OpenCode(e.code, e.now), w.rows)
    case None => assert forall r :: r in w.rows ==> !OpenCode(e.code, e.now)(r);
    case Some(i) =>
      forall r | r in w.rows && r.code == e.code ensures r == w.rows[i] { AtMostOneRow(w, r, w.rows[i]); }
  }

  /** A new claim is open for fifteen minutes, has no user, and its e-mail hint is cut to 254 characters. It drops the
      expired claims; of the others none goes, unless 200 of them are stored: then the oldest does. */
  lemma CreateIsExact(w: World, e: Event)
    requires Inv(w) && e.Create? && Enabled(w, e)
    ensures var row := Row(e.token, e.code, if |e.email| <= 254 then e.email else e.email[..254], e.name, e.now + 900, "");
            var live := Filter((r: Row) => r.exp > e.now, w.rows);
            && Step(w, e).1 == Claimed(row)
            && Step(w, e).0.rows == (if |live| < 200 then live else live[1..]) + [row]
  {
    var f := (r: Row) => r.exp > e.now;
    var live := Filter(f, w.rows);
    FilterSame(Live(e.now), f, w.rows);
    var row := Step(w, e).1.row;
    assert Step(w, e).0.rows == Last(live + [row], MAX_ROWS);
    assert |live| >= 200 ==> (live + [row])[1..] == live[1..] + [row];
  }

  // ------------------------------------------------------------------ how long a claim is open --

  /** Step `i` made the claim of this token, or renewed it. */
  ghost predicate ClaimedAt(ws: seq<World>, es: seq<Event>, i: int, token: Token)
    requires IsRun(ws, es)
  {
    && 0 <= i < |es| && (es[i].Create? || es[i].Refresh?) && es[i].token == token && ReplyAt(ws, es, i).Claimed?
  }

  /** The last such step before `k`. */
  ghost predicate LastClaimed(ws: seq<World>, es: seq<Event>, i: int, k: int, token: Token)
    requires IsRun(ws, es)
  {
    i < k && ClaimedAt(ws, es, i, token) && forall m :: i < m < k ==> !ClaimedAt(ws, es, m, token)
  }

  lemma ExpiryOfStep(w: World, e: Event, r: Row)
    requires Inv(w) && Enabled(w, e) && r in Step(w, e).0.rows
    ensures if (e.Create? || e.Refresh?) && e.token == r.token && Step(w, e).1.Claimed? then r.exp == e.now + 900
            else exists s :: s in w.rows && s.token == r.token && s.exp == r.exp
  {
    match e
    case Create(_, _, _, _, _) => ExpiryOfCreate(w, e, r);
    case Refresh(_, _, _, _) => ExpiryOfRefresh(w, e, r);
    case Find(_, _) =>
    case Approve(_, _, _, _) => ExpiryOfApprove(w, e, r);
    case Poll(_, _) => assert r in w.rows by { RowOrigin(w, e, r); }
  }

  lemma ExpiryOfCreate(w: World, e: Event, r: Row)
    requires Inv(w) && Enabled(w, e) && e.Create? && r in Step(w, e).0.rows
    ensures if e.token == r.token then r.exp == e.now + 900 else r in w.rows
  {
    CreateKeepsRows(w, e);
    CreateIsExact(w, e);
  }

  lemma ExpiryOfRefresh(w: World, e: Event, r: Row)
    requires Inv(w) && Enabled(w, e) && e.Refresh? && r in Step(w, e).0.rows
    ensures if e.token == r.token && Step(w, e).1.Claimed? then r.exp == e.now + 900 else r in w.rows
  {
    RefreshIsExact(w, e);
    var k :| 0 <= k < |Step(w, e).0.rows| && Step(w, e).0.rows[k] == r;
    if Step(w, e).1.Claimed? && w.rows[k].token != e.token { assert w.rows[k] in w.rows; }
  }

  lemma ExpiryOfApprove(w: World, e: Event, r: Row)
    requires Inv(w) && e.Approve? && r in Step(w, e).0.rows
    ensures exists s :: s in w.rows && s.token == r.token && s.exp == r.exp
  {
    ApprovalIsExact(w, e);
    var k :| 0 <= k < |Step(w, e).0.rows| && Step(w, e).0.rows[k] == r;
    assert w.rows[k] in w.rows && w.rows[k].token == r.token && w.rows[k].exp == r.exp;
  }

  /** A stored claim expires fifteen minutes after the last step that made or renewed it. */
  lemma {:induction false} ExpiryHasClaim(ws: seq<World>, es: seq<Event>, k: nat, r: Row) returns (i: nat)
    requires IsRun(ws, es) && k < |ws| && r in ws[k].rows
    ensures LastClaimed(ws, es, i, k, r.token) && r.exp == es[i].now + 900
  {
    i := k - 1;
    StepHolds(ws, es, i);
    ExpiryOfStep(ws[i], es[i], r);
    if !ClaimedAt(ws, es, i, r.token) {
      var s :| s in ws[i].rows && s.token == r.token && s.exp == r.exp;
      i := ExpiryHasClaim(ws, es, i, s);
    }
  }

  lemma LastClaimedOnce(ws: seq<World>, es: seq<Event>, i: int, j: int, k: int, token: Token)
    requires IsRun(ws, es) && LastClaimed(ws, es, i, k, token) && LastClaimed(ws, es, j, k, token)
    ensures i == j
  {
  }

  /** A poll of a stored claim that is not approved says pending for fifteen minutes from the last step that made or renewed
      it, and expired from then on. */
  lemma PendingForAQuarterHour(ws: seq<World>, es: seq<Event>, k: nat, r: Row, i: int)
    requires IsRun(ws, es) && k < |es| && es[k].Poll? && r in ws[k].rows && r.token == es[k].token && r.user == ""
    requires LastClaimed(ws, es, i, k, r.token)
    ensures ReplyAt(ws, es, k) == if es[k].now < es[i].now + 15 * 60 then Pending else Expired
  {
    RunKeepsInv(ws, es, k);
    PollIsExact(ws[k], es[k]);
    var j := ExpiryHasClaim(ws, es, k, r);
    LastClaimedOnce(ws, es, i, j, k, r.token);
  }

  /** And an account approves a stored claim by its code exactly within that time, while it is not approved yet and has no
      hint or that of the account. */
  lemma ApprovableForAQuarterHour(ws: seq<World>, es: seq<Event>, k: nat, r: Row, i: int)
    requires IsRun(ws, es) && k < |es| && es[k].Approve? && r in ws[k].rows && r.code == es[k].code
    requires LastClaimed(ws, es, i, k, r.token)
    ensures ReplyAt(ws, es, k).Granted?
       <==> es[k].now < es[i].now + 15 * 60 && r.user == "" && (r.email == "" || r.email == es[k].email)
  {
    RunKeepsInv(ws, es, k);
    ApprovalIsExact(ws[k], es[k]);
    var j := ExpiryHasClaim(ws, es, k, r);
    LastClaimedOnce(ws, es, i, j, k, r.token);
    forall s | s in ws[k].rows && s.code == r.code ensures s == r { AtMostOneRow(ws[k], r, s); }
  }
}
