/** The user-claimed agent registration of app/mcp_oauth.py (lines 366-464). Every call is one atomic step: the
    handlers are coroutines that do not suspend between reading and writing the claim list. Tokens stand for their
    hashes; codes and e-mails are already stripped and case-folded. */
module AgentClaims {
  import opened Seqs

  const CLAIM_TTL_SEC: nat := 15 * 60
  const MAX_ROWS: nat := 200
  const MAX_EMAIL: nat := 254

  type Token = string
  type Code = string

  datatype Row = Row(token: Token, code: Code, email: string, name: string, exp: int, user: string)

  datatype Event =
    | Create(token: Token, code: Code, email: string, name: string, now: int)
    | Refresh(token: Token, code: Code, email: string, now: int)
    | Find(code: Code, now: int)
    | Approve(code: Code, email: string, user: string, now: int)
    | Poll(token: Token, now: int)

  datatype Reply =
    | Claimed(row: Row)
    | ExpiredToken
    | Found(hit: Option<Row>)
    | Granted(row: Row)
    | WrongAccount
    | UnknownCode
    | Approved(row: Row)
    | Pending
    | Expired

  /** The stored claims, and every token and code ever drawn. */
  datatype World = World(rows: seq<Row>, tokens: set<Token>, codes: set<Code>)

  function Hint(email: string): string {
    if |email| <= MAX_EMAIL then email else email[..MAX_EMAIL]
  }

  /** The first row satisfying a condition. */
  function First(p: Row -> bool, rows: seq<Row>): (i: Option<nat>)
    ensures i.Some? ==> i.value < |rows| && p(rows[i.value]) && forall j :: 0 <= j < i.value ==> !p(rows[j])
    ensures i.None? ==> forall j :: 0 <= j < |rows| ==> !p(rows[j])
  {
    if rows == [] then None
    else if p(rows[0]) then Some(0)
    else match First(p, rows[1..]) case None => None case Some(i) => Some(i + 1)
  }

  function Live(now: int): Row -> bool {
    (r: Row) => r.exp > now
  }

  /** Pending rows that can still be refreshed or approved. */
  function OpenToken(token: Token, now: int): Row -> bool {
    (r: Row) => r.token == token && r.exp > now && r.user == ""
  }

  function OpenCode(code: Code, now: int): Row -> bool {
    (r: Row) => r.code == code && r.exp > now && r.user == ""
  }

  function OfToken(token: Token): Row -> bool {
    (r: Row) => r.token == token
  }

  function CreateStep(rows: seq<Row>, token: Token, code: Code, email: string, name: string, now: int): (seq<Row>, Reply) {
    var row := Row(token, code, Hint(email), name, now + CLAIM_TTL_SEC, "");
    (Last(Filter(Live(now), rows) + [row], MAX_ROWS), Claimed(row))
  }

  function RefreshStep(rows: seq<Row>, token: Token, code: Code, email: string, now: int): (seq<Row>, Reply) {
    match First(OpenToken(token, now), rows)
    case None => (rows, ExpiredToken)
    case Some(i) =>
      var row := Renewed(rows[i], code, email, now);
      (Last(rows[i := row], MAX_ROWS), Claimed(row))
  }

  function Renewed(row: Row, code: Code, email: string, now: int): Row {
    row.(code := code, exp := now + CLAIM_TTL_SEC, email := if email == "" then row.email else Hint(email))
  }

  function FindStep(rows: seq<Row>, code: Code, now: int): Reply {
    match First(OpenCode(code, now), rows)
    case None => Found(None)
    case Some(i) => Found(Some(rows[i]))
  }

  predicate MayApprove(row: Row, email: string) {
    row.email == "" || row.email == email
  }

  function ApproveStep(rows: seq<Row>, code: Code, email: string, user: string, now: int): (seq<Row>, Reply) {
    match First(OpenCode(code, now), rows)
    case None => (rows, UnknownCode)
    case Some(i) =>
      if !MayApprove(rows[i], email) then (rows, WrongAccount)
      else (Last(rows[i := rows[i].(user := user)], MAX_ROWS), Granted(rows[i].(user := user)))
  }

  function PollStep(rows: seq<Row>, token: Token, now: int): (seq<Row>, Reply) {
    match First(OfToken(token), rows)
    case None => (rows, Expired)
    case Some(i) =>
      if rows[i].user != "" then (RemoveAt(rows, i), Approved(rows[i]))
      else if rows[i].exp <= now then (rows, Expired)
      else (rows, Pending)
  }

  function Step(w: World, e: Event): (World, Reply) {
    match e
    case Create(token, code, email, name, now) =>
      var (rows, reply) := CreateStep(w.rows, token, code, email, name, now);
      (World(rows, w.tokens + {token}, w.codes + {code}), reply)
    case Refresh(token, code, email, now) =>
      var (rows, reply) := RefreshStep(w.rows, token, code, email, now);
      (World(rows, w.tokens, w.codes + {code}), reply)
    case Find(code, now) => (w, FindStep(w.rows, code, now))
    case Approve(code, email, user, now) =>
      var (rows, reply) := ApproveStep(w.rows, code, email, user, now);
      (w.(rows := rows), reply)
    case Poll(token, now) =>
      var (rows, reply) := PollStep(w.rows, token, now);
      (w.(rows := rows), reply)
  }

  /** Drawn tokens and codes are new. */
  predicate Enabled(w: World, e: Event) {
    match e
    case Create(token, code, _, _, _) => token !in w.tokens && code !in w.codes
    case Refresh(_, code, _, _) => code !in w.codes
    case _ => true
  }

  // Invariant

  ghost predicate RowsOk(rows: seq<Row>, tokens: set<Token>, codes: set<Code>) {
    && |rows| <= MAX_ROWS
    && (forall r :: r in rows ==> r.token in tokens && r.code in codes)
    && Distinct(rows)
  }

  ghost predicate Distinct(rows: seq<Row>) {
    forall i, j :: 0 <= i < j < |rows| ==> rows[i].token != rows[j].token && rows[i].code != rows[j].code
  }

  ghost predicate Inv(w: World) { RowsOk(w.rows, w.tokens, w.codes) }

  lemma AtMostOneRow(w: World, r: Row, s: Row)
    requires Inv(w) && r in w.rows && s in w.rows && (r.token == s.token || r.code == s.code)
    ensures r == s
  {
  }

  lemma AppendDistinct(rows: seq<Row>, row: Row)
    requires Distinct(rows) && forall r :: r in rows ==> r.token != row.token && r.code != row.code
    ensures Distinct(rows + [row])
  {
    forall i | 0 <= i < |rows| ensures rows[i].token != row.token && rows[i].code != row.code {
      assert rows[i] in rows;
    }
  }

  lemma FilterDistinct(f: Row -> bool, rows: seq<Row>)
    requires Distinct(rows)
    ensures Distinct(Filter(f, rows))
  {
    UniqueFilter((r: Row) => r.token, f, rows);
    UniqueFilter((r: Row) => r.code, f, rows);
  }

  /** The newest row survives the truncation. */
  lemma LastKeepsEnd(rows: seq<Row>, row: Row)
    ensures row in Last(rows + [row], MAX_ROWS)
    ensures forall r :: r in Last(rows + [row], MAX_ROWS) ==> r in rows || r == row
  {
    var kept := Last(rows + [row], MAX_ROWS);
    assert kept[|kept| - 1] == row;
  }

  lemma CreateKeepsRows(w: World, e: Event)
    requires Inv(w) && e.Create? && Enabled(w, e)
    ensures Inv(Step(w, e).0)
    ensures forall r :: r in Step(w, e).0.rows ==> r in w.rows || r == Step(w, e).1.row
    ensures Step(w, e).1.row in Step(w, e).0.rows
  {
    var kept, row := Filter(Live(e.now), w.rows), Step(w, e).1.row;
    FilterMembers(Live(e.now), w.rows);
    FilterDistinct(Live(e.now), w.rows);
    AppendDistinct(kept, row);
    LastKeepsEnd(kept, row);
  }

  lemma RefreshKeepsRows(w: World, e: Event)
    requires Inv(w) && e.Refresh? && Enabled(w, e)
    ensures Inv(Step(w, e).0)
    ensures Step(w, e).1.ExpiredToken? ==> Step(w, e).0.rows == w.rows
  {
  }

  lemma ApproveKeepsRows(w: World, e: Event)
    requires Inv(w) && e.Approve?
    ensures Inv(Step(w, e).0)
  {
  }

  lemma PollKeepsRows(w: World, e: Event)
    requires Inv(w) && e.Poll?
    ensures Inv(Step(w, e).0)
  {
  }

  lemma StepKeepsInv(w: World, e: Event)
    requires Inv(w) && Enabled(w, e)
    ensures Inv(Step(w, e).0)
  {
    match e
    case Create(_, _, _, _, _) => CreateKeepsRows(w, e);
    case Refresh(_, _, _, _) => RefreshKeepsRows(w, e);
    case Find(_, _) =>
    case Approve(_, _, _, _) => ApproveKeepsRows(w, e);
    case Poll(_, _) => PollKeepsRows(w, e);
  }

  // One step, seen from the rows it leaves

  ghost predicate CreatedBy(e: Event, r: Row) {
    e.Create? && r == Row(e.token, e.code, Hint(e.email), e.name, e.now + CLAIM_TTL_SEC, "")
  }

  ghost predicate RefreshedBy(w: World, e: Event, r: Row) {
    e.Refresh? && exists prior :: prior in w.rows && OpenToken(e.token, e.now)(prior) && r == Renewed(prior, e.code, e.email, e.now)
  }

  /** The row was approved by this call: it carried the presented code, had not expired, was still pending, and its
      e-mail hint, if any, was the account's e-mail. Nothing but the user changed. */
  ghost predicate ApprovedBy(w: World, e: Event, r: Row) {
    && e.Approve? && r.(user := "") in w.rows && r.user == e.user
    && r.code == e.code && r.exp > e.now && (r.email == "" || r.email == e.email)
  }

  lemma RefreshOrigin(w: World, e: Event, r: Row)
    requires Inv(w) && e.Refresh? && r in Step(w, e).0.rows
    ensures r in w.rows || RefreshedBy(w, e, r)
  {
    match First(OpenToken(e.token, e.now), w.rows)
    case None =>
    case Some(i) => assert w.rows[i] in w.rows;
  }

  lemma ApproveOrigin(w: World, e: Event, r: Row)
    requires Inv(w) && e.Approve? && r in Step(w, e).0.rows
    ensures r in w.rows || (ApprovedBy(w, e, r) && Step(w, e).1 == Granted(r))
  {
    match First(OpenCode(e.code, e.now), w.rows)
    case None =>
    case Some(i) =>
      if MayApprove(w.rows[i], e.email) {
        var prior := w.rows[i];
        var row := prior.(user := e.user);
        assert row.(user := "") == prior && prior in w.rows;
      }
  }

  /** Every row after a step was there before, or is what this very step created, refreshed or approved. */
  lemma RowOrigin(w: World, e: Event, r: Row)
    requires Inv(w) && Enabled(w, e) && r in Step(w, e).0.rows
    ensures r in w.rows || CreatedBy(e, r) || RefreshedBy(w, e, r) || (ApprovedBy(w, e, r) && Step(w, e).1 == Granted(r))
  {
    match e
    case Create(_, _, _, _, _) => CreateKeepsRows(w, e);
    case Refresh(_, _, _, _) => RefreshOrigin(w, e, r);
    case Find(_, _) =>
    case Approve(_, _, _, _) => ApproveOrigin(w, e, r);
    case Poll(_, _) =>
  }

  // Runs

  const START := World([], {}, {})

  ghost predicate IsRun(ws: seq<World>, es: seq<Event>) {
    && |ws| == |es| + 1 && ws[0] == START
    && (forall i :: 0 <= i < |es| ==> Enabled(ws[i], es[i]) && ws[i + 1] == Step(ws[i], es[i]).0)
    && (forall i, j :: 0 <= i <= j < |es| ==> es[i].now <= es[j].now)
  }

  function ReplyAt(ws: seq<World>, es: seq<Event>, i: nat): Reply
    requires i < |es| <= |ws|
  {
    Step(ws[i], es[i]).1
  }

  lemma {:induction false} RunKeepsInv(ws: seq<World>, es: seq<Event>, i: nat)
    requires IsRun(ws, es) && i < |ws|
    ensures Inv(ws[i])
  {
    if i > 0 {
      RunKeepsInv(ws, es, i - 1);
      StepKeepsInv(ws[i - 1], es[i - 1]);
    }
  }

  lemma {:induction false} DrawnStaysDrawn(ws: seq<World>, es: seq<Event>, i: nat, j: nat)
    requires IsRun(ws, es) && i <= j < |ws|
    ensures ws[i].tokens <= ws[j].tokens && ws[i].codes <= ws[j].codes
  {
    if i < j { DrawnStaysDrawn(ws, es, i, j - 1); }
  }

  ghost predicate NoToken(rows: seq<Row>, token: Token) {
    forall r :: r in rows ==> r.token != token
  }

  ghost predicate NoCode(rows: seq<Row>, code: Code) {
    forall r :: r in rows ==> r.code != code
  }

  lemma StepHolds(ws: seq<World>, es: seq<Event>, i: nat)
    requires IsRun(ws, es) && i < |es|
    ensures Inv(ws[i]) && Enabled(ws[i], es[i]) && ws[i + 1] == Step(ws[i], es[i]).0
  {
    RunKeepsInv(ws, es, i);
  }

  lemma GoneTokenStep(w: World, e: Event, token: Token)
    requires Inv(w) && Enabled(w, e) && token in w.tokens && NoToken(w.rows, token)
    ensures NoToken(Step(w, e).0.rows, token)
  {
    forall r | r in Step(w, e).0.rows ensures r.token != token { RowOrigin(w, e, r); }
  }

  lemma DeadCodeStep(w: World, e: Event, code: Code)
    requires Inv(w) && Enabled(w, e) && code in w.codes && NoCode(w.rows, code)
    ensures NoCode(Step(w, e).0.rows, code)
  {
    forall r | r in Step(w, e).0.rows ensures r.code != code { RowOrigin(w, e, r); }
  }

  lemma GoneTokenRunStep(ws: seq<World>, es: seq<Event>, j: nat, token: Token)
    requires IsRun(ws, es) && j < |es| && token in ws[j].tokens && NoToken(ws[j].rows, token)
    ensures NoToken(ws[j + 1].rows, token)
  {
    StepHolds(ws, es, j);
    GoneTokenStep(ws[j], es[j], token);
  }

  /** A drawn token whose row is gone never gets one again. */
  lemma {:induction false} GoneTokenStaysGone(ws: seq<World>, es: seq<Event>, i: nat, j: nat, token: Token)
    requires IsRun(ws, es) && i <= j < |ws| && token in ws[i].tokens && NoToken(ws[i].rows, token)
    ensures NoToken(ws[j].rows, token)
  {
    if i < j {
      GoneTokenStaysGone(ws, es, i, j - 1, token);
      DrawnStaysDrawn(ws, es, i, j - 1);
      GoneTokenRunStep(ws, es, j - 1, token);
    }
  }

  lemma DeadCodeRunStep(ws: seq<World>, es: seq<Event>, j: nat, code: Code)
    requires IsRun(ws, es) && j < |es| && code in ws[j].codes && NoCode(ws[j].rows, code)
    ensures NoCode(ws[j + 1].rows, code)
  {
    StepHolds(ws, es, j);
    DeadCodeStep(ws[j], es[j], code);
  }

  /** A drawn code that no row carries is never carried again. */
  lemma {:induction false} DeadCodeStaysDead(ws: seq<World>, es: seq<Event>, i: nat, j: nat, code: Code)
    requires IsRun(ws, es) && i <= j < |ws| && code in ws[i].codes && NoCode(ws[i].rows, code)
    ensures NoCode(ws[j].rows, code)
  {
    if i < j {
      DeadCodeStaysDead(ws, es, i, j - 1, code);
      DrawnStaysDrawn(ws, es, i, j - 1);
      DeadCodeRunStep(ws, es, j - 1, code);
    }
  }

  lemma CollectedIsGone(w: World, e: Event)
    requires Inv(w) && e.Poll? && Step(w, e).1.Approved?
    ensures e.token in w.tokens && Step(w, e).1.row in w.rows && Step(w, e).1.row.token == e.token
    ensures forall r :: r in Step(w, e).0.rows ==> r.token != e.token
  {
    var i := First(OfToken(e.token), w.rows).value;
    assert w.rows[i] in w.rows;
  }

  /** A claim token is answered "approved" at most once in any run. */
  lemma ApprovedAtMostOnce(ws: seq<World>, es: seq<Event>, i: nat, j: nat)
    requires IsRun(ws, es) && i < j < |es| && es[i].Poll? && es[j].Poll? && es[i].token == es[j].token
    requires ReplyAt(ws, es, i).Approved?
    ensures ReplyAt(ws, es, j) == Expired
  {
    RunKeepsInv(ws, es, i);
    CollectedIsGone(ws[i], es[i]);
    GoneTokenStaysGone(ws, es, i + 1, j, es[i].token);
  }

  lemma ApprovedRowStep(ws: seq<World>, es: seq<Event>, i: nat, r: Row)
    requires IsRun(ws, es) && i < |es| && r in ws[i + 1].rows && r.user != ""
    ensures r in ws[i].rows || (ApprovedBy(ws[i], es[i], r) && ReplyAt(ws, es, i) == Granted(r))
  {
    StepHolds(ws, es, i);
    RowOrigin(ws[i], es[i], r);
  }

  /** An approved row goes back to the call that approved it, unchanged since. */
  lemma {:induction false} ApprovedRowOrigin(ws: seq<World>, es: seq<Event>, i: nat, r: Row) returns (j: nat)
    requires IsRun(ws, es) && i < |ws| && r in ws[i].rows && r.user != ""
    ensures j < i && ApprovedBy(ws[j], es[j], r) && ReplyAt(ws, es, j) == Granted(r)
  {
    assert i > 0;
    ApprovedRowStep(ws, es, i - 1, r);
    if r in ws[i - 1].rows {
      j := ApprovedRowOrigin(ws, es, i - 1, r);
    } else {
      j := i - 1;
    }
  }

  /** "Approved" is only ever answered after an approval of that claim's own row with its current code, before its
      current expiry, by an account matching the e-mail hint; the answer names the approving user. */
  lemma ApprovalTracesBack(ws: seq<World>, es: seq<Event>, i: nat) returns (j: nat)
    requires IsRun(ws, es) && i < |es| && es[i].Poll? && ReplyAt(ws, es, i).Approved?
    ensures j < i && ReplyAt(ws, es, i).row.token == es[i].token
    ensures ApprovedBy(ws[j], es[j], ReplyAt(ws, es, i).row) && ReplyAt(ws, es, j) == Granted(ReplyAt(ws, es, i).row)
  {
    RunKeepsInv(ws, es, i);
    CollectedIsGone(ws[i], es[i]);
    j := ApprovedRowOrigin(ws, es, i, ReplyAt(ws, es, i).row);
  }

  /** The only row its token can have is r itself. */
  ghost predicate OnlyRow(rows: seq<Row>, r: Row) {
    forall s :: s in rows && s.token == r.token ==> s == r
  }

  /** A row that is approved, or expired at this time, is out of reach of refresh and approval. */
  predicate Settled(r: Row, now: int) { r.user != "" || r.exp <= now }

  lemma SettledStep(w: World, e: Event, r: Row)
    requires Inv(w) && Enabled(w, e) && r.token in w.tokens && OnlyRow(w.rows, r) && Settled(r, e.now)
    ensures OnlyRow(Step(w, e).0.rows, r)
  {
    forall s | s in Step(w, e).0.rows && s.token == r.token ensures s == r {
      RowOrigin(w, e, s);
      if ApprovedBy(w, e, s) {
        assert s.(user := "").token == r.token;
      }
    }
  }

  lemma SettledRunStep(ws: seq<World>, es: seq<Event>, j: nat, r: Row)
    requires IsRun(ws, es) && j < |es| && r.token in ws[j].tokens && OnlyRow(ws[j].rows, r) && Settled(r, es[j].now)
    ensures OnlyRow(ws[j + 1].rows, r)
  {
    StepHolds(ws, es, j);
    SettledStep(ws[j], es[j], r);
  }

  lemma RowIsOnly(w: World, r: Row)
    requires Inv(w) && r in w.rows
    ensures OnlyRow(w.rows, r) && r.token in w.tokens
  {
    forall s | s in w.rows && s.token == r.token ensures s == r { AtMostOneRow(w, r, s); }
  }

  /** A settled row never changes again: for the rest of the run it is the same or gone. */
  lemma {:induction false} SettledIsFinal(ws: seq<World>, es: seq<Event>, i: nat, j: nat, r: Row)
    requires IsRun(ws, es) && i <= j < |ws| && r in ws[i].rows
    requires r.user != "" || (i < |es| && r.exp <= es[i].now)
    ensures OnlyRow(ws[j].rows, r)
  {
    RunKeepsInv(ws, es, i);
    if i == j {
      RowIsOnly(ws[i], r);
    } else {
      SettledIsFinal(ws, es, i, j - 1, r);
      assert r.token in ws[j - 1].tokens by { DrawnStaysDrawn(ws, es, i, j - 1); }
      assert es[i].now <= es[j - 1].now;
      SettledRunStep(ws, es, j - 1, r);
    }
  }

  /** An approved user is never overwritten. */
  lemma ApprovedUserIsFinal(ws: seq<World>, es: seq<Event>, i: nat, j: nat, r: Row, s: Row)
    requires IsRun(ws, es) && i <= j < |ws| && r in ws[i].rows && r.user != "" && s in ws[j].rows && s.token == r.token
    ensures s == r
  {
    SettledIsFinal(ws, es, i, j, r);
  }

  lemma RefreshDropsCode(w: World, e: Event, r: Row)
    requires Inv(w) && Enabled(w, e) && e.Refresh? && Step(w, e).1.Claimed? && r in w.rows && r.token == e.token
    ensures forall s :: s in Step(w, e).0.rows ==> s.code != r.code
    ensures r.code in Step(w, e).0.codes
  {
    forall s | s in Step(w, e).0.rows ensures s.code != r.code {
      var i := First(OpenToken(e.token, e.now), w.rows).value;
      AtMostOneRow(w, r, w.rows[i]);
    }
  }

  /** After a refresh the claim's earlier code approves nothing and finds nothing, ever. */
  lemma RefreshKillsCode(ws: seq<World>, es: seq<Event>, i: nat, j: nat, r: Row)
    requires IsRun(ws, es) && i < j < |es| && es[i].Refresh? && ReplyAt(ws, es, i).Claimed?
    requires r in ws[i].rows && r.token == es[i].token
    requires (es[j].Approve? || es[j].Find?) && es[j].code == r.code
    ensures ReplyAt(ws, es, j) == if es[j].Approve? then UnknownCode else Found(None)
  {
    RunKeepsInv(ws, es, i);
    RefreshDropsCode(ws[i], es[i], r);
    DeadCodeStaysDead(ws, es, i + 1, j, r.code);
  }

  /** A claim that expired unapproved is answered "expired" from then on. */
  lemma ExpiredPollsExpired(ws: seq<World>, es: seq<Event>, i: nat, j: nat, r: Row)
    requires IsRun(ws, es) && i <= j < |es| && r in ws[i].rows && r.user == "" && r.exp <= es[i].now
    requires es[j].Poll? && es[j].token == r.token
    ensures ReplyAt(ws, es, j) == Expired
  {
    SettledIsFinal(ws, es, i, j, r);
    match First(OfToken(r.token), ws[j].rows)
    case None =>
    case Some(k) => assert ws[j].rows[k] in ws[j].rows;
  }

  /** An approval is granted exactly when a pending, unexpired row carries the code and its hint allows the account,
      and it changes the user of that row only; otherwise nothing changes. */
  lemma ApprovalIsExact(w: World, e: Event)
    requires Inv(w) && e.Approve?
    ensures Step(w, e).1.Granted? <==> exists r :: r in w.rows && OpenCode(e.code, e.now)(r) && MayApprove(r, e.email)
    ensures !Step(w, e).1.Granted? ==> Step(w, e).0 == w
    ensures var rows := Step(w, e).0.rows;
            (|rows| == |w.rows| && forall i :: 0 <= i < |rows| ==>
              rows[i] == if Step(w, e).1.Granted? && w.rows[i].code == e.code then w.rows[i].(user := e.user) else w.rows[i])
  {
    match First(OpenCode(e.code, e.now), w.rows)
    case None =>
    case Some(k) =>
      forall r | r in w.rows && r.code == e.code ensures r == w.rows[k] { AtMostOneRow(w, r, w.rows[k]); }
      forall i | 0 <= i < |w.rows| && w.rows[i].code == e.code ensures i == k { assert w.rows[i] in w.rows; }
  }

  /** The stored hint is cut, so a claim made for an e-mail can be approved by the account of that e-mail exactly
      when the e-mail is no longer than the cut; an account of the cut e-mail passes in its place. */
  lemma HintMatchesItsEmail(token: Token, code: Code, email: string, name: string, now: int, w: World)
    ensures MayApprove(CreateStep(w.rows, token, code, email, name, now).1.row, email) <==> |email| <= 254
    ensures MayApprove(CreateStep(w.rows, token, code, email, name, now).1.row, Hint(email))
  {
  }

  const LONG_EMAIL: string := seq(255, i => 'a')

  /** For example, an e-mail of 255 characters cannot approve its own claim. */
  lemma LongEmailExample(token: Token, code: Code, name: string, now: int, w: World)
    ensures !MayApprove(CreateStep(w.rows, token, code, LONG_EMAIL, name, now).1.row, LONG_EMAIL)
  {
    HintMatchesItsEmail(token, code, LONG_EMAIL, name, now, w);
  }

  /** The claim list as the program keeps it. */
  class ClaimStore {
    var rows: seq<Row>

    constructor ()
      ensures rows == START.rows
    {
      rows := [];
    }

    method CreateClaim(token: Token, code: Code, email: string, name: string, now: int) returns (reply: Reply)
      modifies this
      ensures (rows, reply) == CreateStep(old(rows), token, code, email, name, now)
    {
      var kept := [];
      for i := 0 to |rows|
        invariant rows == old(rows)
        invariant kept == Filter(Live(now), rows[..i])
      {
        FilterConcat(Live(now), rows[..i], [rows[i]]);
        assert rows[..i + 1] == rows[..i] + [rows[i]];
        if rows[i].exp > now {
          kept := kept + [rows[i]];
        }
      }
      assert rows[..|rows|] == rows;
      var row := Row(token, code, Hint(email), name, now + CLAIM_TTL_SEC, "");
      rows := Last(kept + [row], MAX_ROWS);
      reply := Claimed(row);
    }

    /** The scan every other call starts with. */
    method Scan(p: Row -> bool) returns (found: Option<nat>)
      ensures found == First(p, rows)
    {
      for i := 0 to |rows|
        invariant forall j :: 0 <= j < i ==> !p(rows[j])
      {
        if p(rows[i]) {
          return Some(i);
        }
      }
      return None;
    }

    method RefreshClaim(token: Token, code: Code, email: string, now: int) returns (reply: Reply)
      modifies this
      ensures (rows, reply) == RefreshStep(old(rows), token, code, email, now)
    {
      var found := Scan(OpenToken(token, now));
      if found.None? {
        return ExpiredToken;
      }
      var i := found.value;
      var row := rows[i].(code := code, exp := now + CLAIM_TTL_SEC);
      if email != "" {
        row := row.(email := Hint(email));
      }
      rows := Last(rows[i := row], MAX_ROWS);
      reply := Claimed(row);
    }

    method FindClaimByCode(code: Code, now: int) returns (reply: Reply)
      ensures reply == FindStep(rows, code, now)
    {
      var found := Scan(OpenCode(code, now));
      reply := Found(if found.None? then None else Some(rows[found.value]));
    }

    method ApproveClaim(code: Code, email: string, user: string, now: int) returns (reply: Reply)
      modifies this
      ensures (rows, reply) == ApproveStep(old(rows), code, email, user, now)
    {
      var found := Scan(OpenCode(code, now));
      if found.None? {
        return UnknownCode;
      }
      var row := rows[found.value];
      if row.email != "" && row.email != email {
        return WrongAccount;
      }
      row := row.(user := user);
      rows := Last(rows[found.value := row], MAX_ROWS);
      reply := Granted(row);
    }

    method PollClaim(token: Token, now: int) returns (reply: Reply)
      modifies this
      ensures (rows, reply) == PollStep(old(rows), token, now)
    {
      var found := Scan(OfToken(token));
      if found.None? {
        return Expired;
      }
      var row := rows[found.value];
      if row.user != "" {
        rows := RemoveAt(rows, found.value);
        return Approved(row);
      }
      reply := if row.exp <= now then Expired else Pending;
    }
  }
}
