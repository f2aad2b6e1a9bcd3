/** The catalogue snapshot of app/catalog_snap.py: a deduplicated copy of the live listings, kept up to date by
    watermark deltas. Stamps are the source's ISO timestamps in their string order, with 0 for the empty string.
    Each build and each delta reads one consistent state of the live table; the scan order is arbitrary. */
module CatalogSnap {
  import opened Seqs

  type Key = string
  type Ident = string

  /** One version of a live listing; `content` stands for its remaining columns. */
  datatype Row = Row(key: Key, ident: Ident, firstSeen: nat, lastSeen: Option<nat>, gone: bool, content: string)

  /** The snapshot file with its two watermarks. */
  datatype Index = Index(rows: map<Ident, Row>, lastFirstSeen: nat, lastSeen: nat)

  /** The live table, every row version it ever held, and the snapshot. */
  datatype World = World(live: map<Key, Row>, versions: set<Row>, index: Index)

  datatype Event =
    | Insert(row: Row)
    | Update(row: Row)
    | Build(scan: seq<Row>)
    | Delta(added: seq<Row>, withdrawn: seq<Row>)
    | Adopt

  /** INSERT OR IGNORE, row by row. */
  function Ignored(rows: map<Ident, Row>, scan: seq<Row>): map<Ident, Row> {
    if scan == [] then rows else
      var before := Ignored(rows, scan[..|scan| - 1]);
      var r := scan[|scan| - 1];
      if r.ident in before then before else before[r.ident := r]
  }

  /** INSERT OR REPLACE, row by row. */
  function Replaced(rows: map<Ident, Row>, scan: seq<Row>): map<Ident, Row> {
    if scan == [] then rows else
      var r := scan[|scan| - 1];
      Replaced(rows, scan[..|scan| - 1])[r.ident := r]
  }

  ghost predicate Scans(scan: seq<Row>, rows: set<Row>) {
    forall r :: r in scan <==> r in rows
  }

  ghost predicate NewestFirst(scan: seq<Row>) {
    forall i, j :: 0 <= i < j < |scan| ==> scan[i].firstSeen >= scan[j].firstSeen
  }

  /** The rows the first pass of a delta selects. */
  predicate IsFresh(r: Row, since: nat) { r.firstSeen >= since }

  /** The rows the second pass selects; SQL compares NULL with nothing. */
  predicate IsWithdrawn(r: Row, since: nat) { r.gone && r.lastSeen.Some? && r.lastSeen.value >= since }

  /** `MAX(stamp) or prev`, the new value of a watermark. */
  ghost predicate IsMaxOr(stamps: set<nat>, prev: nat, w: nat) {
    if forall v :: v in stamps ==> v == 0 then w == prev else (w in stamps && forall v :: v in stamps ==> v <= w)
  }

  function FirstStamps(rows: map<Ident, Row>): set<nat> {
    set k | k in rows :: rows[k].firstSeen
  }

  function LastStamps(rows: map<Ident, Row>): set<nat> {
    set k | k in rows && rows[k].lastSeen.Some? :: rows[k].lastSeen.value
  }

  ghost predicate Watermarked(rows: map<Ident, Row>, prevFirst: nat, prevLast: nat, after: Index) {
    && after.rows == rows
    && IsMaxOr(FirstStamps(rows), prevFirst, after.lastFirstSeen)
    && IsMaxOr(LastStamps(rows), prevLast, after.lastSeen)
  }

  ghost predicate BuildStep(live: map<Key, Row>, scan: seq<Row>, after: Index) {
    && Scans(scan, live.Values) && NewestFirst(scan)
    && Watermarked(Ignored(map[], scan), 0, 0, after)
  }

  /** A delta; it does nothing while the watermark is still the empty string. */
  ghost predicate DeltaStep(live: map<Key, Row>, index: Index, added: seq<Row>, withdrawn: seq<Row>, after: Index) {
    if index.lastFirstSeen == 0 then after == index
    else
      && Scans(added, set r | r in live.Values && IsFresh(r, index.lastFirstSeen))
      && Scans(withdrawn, set r | r in live.Values && IsWithdrawn(r, index.lastSeen))
      && Watermarked(Replaced(Replaced(index.rows, added), withdrawn), index.lastFirstSeen, index.lastSeen, after)
  }

  /** A restart recomputes the watermarks from the file. */
  ghost predicate AdoptStep(index: Index, after: Index) {
    Watermarked(index.rows, 0, 0, after)
  }

  /** A new listing carries a stamp no earlier than any listing before it; an update keeps key, identity and first
      sighting; listings are never deleted. */
  ghost predicate Next(w: World, e: Event, after: World) {
    match e
    case Insert(r) =>
      && r.key !in w.live && r.firstSeen > 0 && (forall k :: k in w.live ==> w.live[k].firstSeen <= r.firstSeen)
      && after == World(w.live[r.key := r], w.versions + {r}, w.index)
    case Update(r) =>
      && r.key in w.live && w.live[r.key].ident == r.ident && w.live[r.key].firstSeen == r.firstSeen
      && after == World(w.live[r.key := r], w.versions + {r}, w.index)
    case Build(scan) => BuildStep(w.live, scan, after.index) && after == w.(index := after.index)
    case Delta(fr, wi) => DeltaStep(w.live, w.index, fr, wi, after.index) && after == w.(index := after.index)
    case Adopt => AdoptStep(w.index, after.index) && after == w.(index := after.index)
  }

  function Idents(live: map<Key, Row>): set<Ident> {
    set k | k in live :: live[k].ident
  }

  // Invariant

  ghost predicate LiveOk(live: map<Key, Row>, versions: set<Row>) {
    && (forall k :: k in live ==> live[k].key == k && live[k] in versions && live[k].firstSeen > 0)
    && (forall v :: v in versions ==> v.key in live && live[v.key].ident == v.ident && live[v.key].firstSeen == v.firstSeen)
  }

  ghost predicate RowsOk(rows: map<Ident, Row>, versions: set<Row>) {
    forall k :: k in rows ==> rows[k].ident == k && rows[k] in versions
  }

  /** The first watermark is exactly the newest stamp in the snapshot. */
  ghost predicate MarkOk(index: Index) {
    IsMaxOr(FirstStamps(index.rows), 0, index.lastFirstSeen)
  }

  /** Everything first seen before the watermark is covered. */
  ghost predicate Covered(live: map<Key, Row>, index: Index) {
    forall k :: k in live && live[k].firstSeen < index.lastFirstSeen ==> live[k].ident in index.rows
  }

  ghost predicate Inv(w: World) {
    LiveOk(w.live, w.versions) && RowsOk(w.index.rows, w.versions) && MarkOk(w.index) && Covered(w.live, w.index)
  }

  ghost predicate Mentions(scan: seq<Row>, k: Ident) {
    exists r :: r in scan && r.ident == k
  }

  lemma {:induction false} ReplacedIs(rows: map<Ident, Row>, scan: seq<Row>, k: Ident)
    ensures k in Replaced(rows, scan) <==> k in rows || Mentions(scan, k)
    ensures Mentions(scan, k) ==> Replaced(rows, scan)[k] in scan && Replaced(rows, scan)[k].ident == k
    ensures !Mentions(scan, k) && k in rows ==> Replaced(rows, scan)[k] == rows[k]
  {
    if scan != [] {
      var n := |scan| - 1;
      ReplacedIs(rows, scan[..n], k);
      assert scan == scan[..n] + [scan[n]];
    }
  }

  lemma {:induction false} IgnoredIs(scan: seq<Row>, k: Ident)
    ensures k in Ignored(map[], scan) <==> Mentions(scan, k)
    ensures Mentions(scan, k) ==> Ignored(map[], scan)[k] in scan && Ignored(map[], scan)[k].ident == k
  {
    if scan != [] {
      var n := |scan| - 1;
      IgnoredIs(scan[..n], k);
      assert scan == scan[..n] + [scan[n]];
    }
  }

  /** The build keeps the newest row of every identity. */
  lemma {:induction false} IgnoredKeepsNewest(scan: seq<Row>, r: Row)
    requires NewestFirst(scan) && r in scan
    ensures r.ident in Ignored(map[], scan) && Ignored(map[], scan)[r.ident].firstSeen >= r.firstSeen
  {
    var n := |scan| - 1;
    var last := scan[n];
    assert scan == scan[..n] + [last];
    IgnoredIs(scan[..n], r.ident);
    if r in scan[..n] {
      IgnoredKeepsNewest(scan[..n], r);
    } else if r.ident in Ignored(map[], scan[..n]) {
      EarlierIsNewer(scan, n, Ignored(map[], scan[..n])[r.ident]);
    }
  }

  lemma EarlierIsNewer(scan: seq<Row>, n: nat, kept: Row)
    requires NewestFirst(scan) && n < |scan| && kept in scan[..n]
    ensures kept.firstSeen >= scan[n].firstSeen
  {
    var i :| 0 <= i < n && scan[..n][i] == kept;
    assert scan[i].firstSeen >= scan[n].firstSeen;
  }

  lemma InsertKeepsInv(w: World, r: Row, after: World)
    requires Inv(w) && Next(w, Insert(r), after)
    ensures Inv(after)
  {
    if w.index.lastFirstSeen > 0 { WatermarkIsSeen(w); }
    forall k | k in after.live && after.live[k].firstSeen < after.index.lastFirstSeen
      ensures after.live[k].ident in after.index.rows
    {
      assert k != r.key;
    }
  }

  /** The watermark never lies ahead of the live table. */
  lemma WatermarkIsSeen(w: World)
    requires Inv(w) && w.index.lastFirstSeen > 0
    ensures exists k :: k in w.live && w.live[k].firstSeen == w.index.lastFirstSeen
  {
    var k :| k in w.index.rows && w.index.rows[k].firstSeen == w.index.lastFirstSeen;
    var v := w.index.rows[k];
    assert w.live[v.key].firstSeen == v.firstSeen;
  }

  lemma UpdateKeepsInv(w: World, r: Row, after: World)
    requires Inv(w) && Next(w, Update(r), after)
    ensures Inv(after)
  {
    forall k | k in after.live && after.live[k].firstSeen < after.index.lastFirstSeen
      ensures after.live[k].ident in after.index.rows
    {
      assert w.live[k].ident == after.live[k].ident && w.live[k].firstSeen == after.live[k].firstSeen;
    }
  }

  /** What a build leaves: one row per live identity, the newest. */
  lemma BuildCovers(live: map<Key, Row>, versions: set<Row>, scan: seq<Row>)
    requires LiveOk(live, versions) && Scans(scan, live.Values)
    ensures Ignored(map[], scan).Keys == Idents(live) && RowsOk(Ignored(map[], scan), versions)
  {
    forall k ensures k in Ignored(map[], scan) <==> k in Idents(live) {
      IgnoredIs(scan, k);
      if k in Idents(live) {
        var j :| j in live && live[j].ident == k;
        assert live[j] in live.Values;
      }
    }
    forall k | k in Ignored(map[], scan)
      ensures Ignored(map[], scan)[k].ident == k && Ignored(map[], scan)[k] in versions
    {
      IgnoredIs(scan, k);
    }
  }

  /** What a working delta leaves: again exactly the live identities. */
  lemma DeltaCovers(w: World, added: seq<Row>, withdrawn: seq<Row>)
    requires Inv(w) && w.index.lastFirstSeen > 0
    requires Scans(added, set r | r in w.live.Values && IsFresh(r, w.index.lastFirstSeen))
    requires Scans(withdrawn, set r | r in w.live.Values && IsWithdrawn(r, w.index.lastSeen))
    ensures var rows := Replaced(Replaced(w.index.rows, added), withdrawn);
            (rows.Keys == Idents(w.live) && RowsOk(rows, w.versions))
  {
    var once := Replaced(w.index.rows, added);
    var rows := Replaced(once, withdrawn);
    forall k | k in rows ensures k in Idents(w.live) && rows[k].ident == k && rows[k] in w.versions {
      ReplacedIs(w.index.rows, added, k);
      ReplacedIs(once, withdrawn, k);
      var v := rows[k];
      assert v.key in w.live && w.live[v.key].ident == k;
    }
    forall j | j in w.live ensures w.live[j].ident in rows {
      var k := w.live[j].ident;
      ReplacedIs(w.index.rows, added, k);
      ReplacedIs(once, withdrawn, k);
      if w.live[j].firstSeen >= w.index.lastFirstSeen {
        assert w.live[j] in w.live.Values;
        assert w.live[j] in added;
      }
    }
  }

  lemma MaxUnique(stamps: set<nat>, prev: nat, v: nat, w: nat)
    requires IsMaxOr(stamps, prev, v) && IsMaxOr(stamps, prev, w)
    ensures v == w
  {
  }

  /** Where a row is present the old watermark does not matter: all live stamps are non-empty. */
  lemma MarkStands(w: World, rows: map<Ident, Row>, mark: nat)
    requires Inv(w) && w.index.lastFirstSeen > 0
    requires rows.Keys == Idents(w.live) && RowsOk(rows, w.versions)
    requires IsMaxOr(FirstStamps(rows), w.index.lastFirstSeen, mark)
    ensures IsMaxOr(FirstStamps(rows), 0, mark)
  {
    WatermarkIsSeen(w);
    var j :| j in w.live && w.live[j].firstSeen == w.index.lastFirstSeen;
    var k := w.live[j].ident;
    assert k in Idents(w.live) && k in rows;
    var v := rows[k];
    assert v in w.versions && w.live[v.key].firstSeen == v.firstSeen;
    assert v.firstSeen in FirstStamps(rows);
  }

  lemma NextKeepsInv(w: World, e: Event, after: World)
    requires Inv(w) && Next(w, e, after)
    ensures Inv(after)
  {
    match e
    case Insert(r) => InsertKeepsInv(w, r, after);
    case Update(r) => UpdateKeepsInv(w, r, after);
    case Build(scan) =>
      BuildCovers(w.live, w.versions, scan);
      AllCovered(w.live, after.index);
    case Delta(fr, wi) =>
      if w.index.lastFirstSeen > 0 {
        DeltaCovers(w, fr, wi);
        AllCovered(w.live, after.index);
        MarkStands(w, after.index.rows, after.index.lastFirstSeen);
      }
    case Adopt => MaxUnique(FirstStamps(w.index.rows), 0, w.index.lastFirstSeen, after.index.lastFirstSeen);
  }

  lemma AllCovered(live: map<Key, Row>, index: Index)
    requires index.rows.Keys == Idents(live)
    ensures Covered(live, index)
  {
    forall k | k in live ensures live[k].ident in index.rows { assert live[k].ident in Idents(live); }
  }

  // Runs

  const START := World(map[], {}, Index(map[], 0, 0))

  /** States `ws` reached one after another by the events `es`, from an empty system. */
  ghost predicate IsRun(ws: seq<World>, es: seq<Event>) {
    && |ws| == |es| + 1 && ws[0] == START
    && forall i :: 0 <= i < |es| ==> Next(ws[i], es[i], ws[i + 1])
  }

  lemma {:induction false} RunKeepsInv(ws: seq<World>, es: seq<Event>, i: nat)
    requires IsRun(ws, es) && i < |ws|
    ensures Inv(ws[i])
  {
    if i > 0 {
      RunKeepsInv(ws, es, i - 1);
      NextKeepsInv(ws[i - 1], es[i - 1], ws[i]);
    }
  }

  lemma {:induction false} LiveNeverShrinks(ws: seq<World>, es: seq<Event>, i: nat, j: nat)
    requires IsRun(ws, es) && i <= j < |ws|
    ensures ws[i].live.Keys <= ws[j].live.Keys
  {
    if i < j {
      LiveNeverShrinks(ws, es, i, j - 1);
      assert Next(ws[j - 1], es[j - 1], ws[j]);
    }
  }

  /** A snapshot without a watermark is an empty snapshot. */
  lemma NoMarkNoRows(w: World)
    requires Inv(w)
    ensures w.index.lastFirstSeen == 0 <==> w.index.rows == map[]
  {
    if w.index.rows != map[] {
      var k :| k in w.index.rows;
      var v := w.index.rows[k];
      assert w.live[v.key].firstSeen == v.firstSeen;
      assert v.firstSeen in FirstStamps(w.index.rows);
    }
  }

  lemma StepStaysNonEmpty(w: World, e: Event, after: World)
    requires Inv(w) && Next(w, e, after) && if e.Build? then w.live != map[] else w.index.lastFirstSeen > 0
    ensures after.index.lastFirstSeen > 0
  {
    NextKeepsInv(w, e, after);
    NoMarkNoRows(w);
    NoMarkNoRows(after);
    if e.Build? {
      BuildCoversWorld(w, e.scan, after);
      var k :| k in w.live;
      assert w.live[k].ident in Idents(w.live);
    } else if e.Delta? {
      DeltaCoversWorld(w, e, after);
    }
  }

  /** Once a build saw a listing the snapshot never becomes empty again. */
  lemma {:induction false} SnapshotStaysNonEmpty(ws: seq<World>, es: seq<Event>, b: nat, i: nat)
    requires IsRun(ws, es) && b < i < |ws| && es[b].Build? && ws[b].live != map[]
    ensures ws[i].index.lastFirstSeen > 0
  {
    RunKeepsInv(ws, es, i - 1);
    assert ws[i - 1].live != map[] by {
      LiveNeverShrinks(ws, es, b, i - 1);
      var k :| k in ws[b].live;
      assert k in ws[i - 1].live;
    }
    if b < i - 1 { SnapshotStaysNonEmpty(ws, es, b, i - 1); }
    StepStaysNonEmpty(ws[i - 1], es[i - 1], ws[i]);
  }

  lemma BuildCoversWorld(w: World, scan: seq<Row>, after: World)
    requires Inv(w) && Next(w, Build(scan), after)
    ensures after.index.rows.Keys == Idents(w.live)
  {
    BuildCovers(w.live, w.versions, scan);
  }

  lemma DeltaCoversWorld(w: World, e: Event, after: World)
    requires Inv(w) && e.Delta? && Next(w, e, after) && w.index.lastFirstSeen > 0
    ensures after.index.rows.Keys == Idents(w.live) && after.live == w.live
    ensures after.index.rows != map[]
  {
    DeltaCovers(w, e.added, e.withdrawn);
    WatermarkIsSeen(w);
    var k :| k in w.live && w.live[k].firstSeen == w.index.lastFirstSeen;
    assert w.live[k].ident in Idents(w.live);
  }

  /** A build of an empty table leaves nothing for the deltas to start from: they do nothing until the next build. */
  lemma {:induction false} EmptyBuildSticks(ws: seq<World>, es: seq<Event>, b: nat, i: nat)
    requires IsRun(ws, es) && b < i < |ws| && es[b].Build? && ws[b].live == map[]
    requires forall j :: b < j < i ==> !es[j].Build?
    ensures ws[i].index.rows == map[] && ws[i].index.lastFirstSeen == 0
  {
    RunKeepsInv(ws, es, i);
    NoMarkNoRows(ws[i]);
    if i == b + 1 {
      RunKeepsInv(ws, es, b);
      BuildCoversWorld(ws[b], es[b].scan, ws[i]);
    } else {
      EmptyBuildSticks(ws, es, b, i - 1);
      assert Next(ws[i - 1], es[i - 1], ws[i]);
    }
  }

  /** The snapshot covers the live table right after a delta, exactly when the last build saw at least one listing
      or there is still nothing to cover. */
  lemma CoverageAfterDelta(ws: seq<World>, es: seq<Event>, b: nat, i: nat)
    requires IsRun(ws, es) && b < i < |es| && es[b].Build? && es[i].Delta?
    requires forall j :: b < j < i ==> !es[j].Build?
    ensures ws[i + 1].index.rows.Keys == Idents(ws[i + 1].live) <==> ws[b].live != map[] || ws[i + 1].live == map[]
  {
    assert Next(ws[i], es[i], ws[i + 1]);
    if ws[b].live != map[] {
      SnapshotStaysNonEmpty(ws, es, b, i);
      RunKeepsInv(ws, es, i);
      DeltaCoversWorld(ws[i], es[i], ws[i + 1]);
    } else {
      EmptyBuildSticks(ws, es, b, i + 1);
      if ws[i + 1].live != map[] {
        var k :| k in ws[i + 1].live;
        assert ws[i + 1].live[k].ident in Idents(ws[i + 1].live);
      }
    }
  }

  const FIRST := Row("k", "x", 1, None, false, "")

  /** For example, a build of the empty table, one listing, and a delta that does not see it. */
  lemma EmptyBuildExample()
    ensures var grown := World(map["k" := FIRST], {FIRST}, START.index);
            && IsRun([START, START, grown, grown], [Build([]), Insert(FIRST), Delta([], [])])
            && grown.index.rows.Keys != Idents(grown.live)
  {
    var grown := World(map["k" := FIRST], {FIRST}, START.index);
    assert grown.live["k"].ident in Idents(grown.live);
    assert START.live.Values == {} && Ignored(map[], []) == map[];
    assert Next(START, Build([]), START);
    assert START.live["k" := FIRST] == grown.live && START.versions + {FIRST} == grown.versions;
    assert Next(START, Insert(FIRST), grown);
    assert Next(grown, Delta([], []), grown);
  }

  /** Every snapshot row, at every moment of every run, is a version the live table really held, under its own
      identity. */
  lemma RowsAreVersions(ws: seq<World>, es: seq<Event>, i: nat, k: Ident)
    requires IsRun(ws, es) && i < |ws| && k in ws[i].index.rows
    ensures ws[i].index.rows[k] in ws[i].versions && ws[i].index.rows[k].ident == k && k in Idents(ws[i].live)
  {
    RunKeepsInv(ws, es, i);
    var v := ws[i].index.rows[k];
    assert v.key in ws[i].live && ws[i].live[v.key].ident == k;
  }

  /** A build covers the table with the newest live row of each identity. */
  lemma BuildKeepsNewest(ws: seq<World>, es: seq<Event>, i: nat, key: Key)
    requires IsRun(ws, es) && i < |es| && es[i].Build? && key in ws[i].live
    ensures ws[i + 1].index.rows.Keys == Idents(ws[i].live)
    ensures var r := ws[i].live[key];
            (r.ident in ws[i + 1].index.rows && ws[i + 1].index.rows[r.ident] in ws[i].live.Values
             && ws[i + 1].index.rows[r.ident].firstSeen >= r.firstSeen)
  {
    RunKeepsInv(ws, es, i);
    assert Next(ws[i], es[i], ws[i + 1]);
    BuildCoversWorld(ws[i], es[i].scan, ws[i + 1]);
    assert ws[i].live[key] in ws[i].live.Values;
    IgnoredKeepsNewest(es[i].scan, ws[i].live[key]);
    IgnoredIs(es[i].scan, ws[i].live[key].ident);
  }

  /** Restarting changes nothing about what the next delta selects as new. */
  lemma AdoptionKeepsTheMark(ws: seq<World>, es: seq<Event>, i: nat)
    requires IsRun(ws, es) && i < |es| && es[i].Adopt?
    ensures ws[i + 1].index.rows == ws[i].index.rows && ws[i + 1].index.lastFirstSeen == ws[i].index.lastFirstSeen
  {
    RunKeepsInv(ws, es, i);
    assert Next(ws[i], es[i], ws[i + 1]);
    MaxUnique(FirstStamps(ws[i].index.rows), 0, ws[i].index.lastFirstSeen, ws[i + 1].index.lastFirstSeen);
  }

  /** The snapshot row of an identity is a current live row of it. */
  predicate Holds(rows: map<Ident, Row>, live: map<Key, Row>, k: Ident) {
    k in rows && rows[k] in live.Values && rows[k].ident == k
  }

  predicate SameAt(rows: map<Ident, Row>, before: map<Ident, Row>, k: Ident) {
    if k in before then k in rows && rows[k] == before[k] else k !in rows
  }

  /** A withdrawn listing that was touched at this time or later. */
  ghost predicate GoneSince(r: Row, mark: nat) { r.gone && r.lastSeen.Some? && mark <= r.lastSeen.value }

  /** What one delta does to one identity, whatever the scan orders: withdrawn rows touched since the second
      watermark win, then rows first seen since the first watermark, both marks included, and otherwise nothing changes.
      So a listing that is withdrawn without being touched again is not flagged. */
  lemma DeltaIsExact(w: World, e: Event, after: World, k: Ident)
    requires Inv(w) && e.Delta? && Next(w, e, after) && w.index.lastFirstSeen > 0
    ensures var gone := exists r :: r in w.live.Values && r.ident == k && GoneSince(r, w.index.lastSeen);
            var recent := exists r :: r in w.live.Values && r.ident == k && w.index.lastFirstSeen <= r.firstSeen;
            var now := after.index.rows;
            && (gone ==> Holds(now, w.live, k) && GoneSince(now[k], w.index.lastSeen))
            && (!gone && recent ==> Holds(now, w.live, k) && w.index.lastFirstSeen <= now[k].firstSeen)
            && (!gone && !recent ==> SameAt(now, w.index.rows, k))
  {
    ReplacedIs(w.index.rows, e.added, k);
    ReplacedIs(Replaced(w.index.rows, e.added), e.withdrawn, k);
    assert forall r :: IsWithdrawn(r, w.index.lastSeen) <==> GoneSince(r, w.index.lastSeen);
  }

  /** The two marks after a build, a delta or a restart: no row of the snapshot is newer, and one is as new, unless no row
      has a stamp; then a delta keeps its marks and the others begin without. */
  lemma MarksAreNewest(w: World, e: Event, after: World)
    requires Inv(w) && Next(w, e, after) && (e.Build? || e.Adopt? || (e.Delta? && w.index.lastFirstSeen > 0))
    ensures var (rows, first, last) := (after.index.rows, after.index.lastFirstSeen, after.index.lastSeen);
            && (forall k :: k in rows ==> rows[k].firstSeen <= first && (rows[k].lastSeen.Some? ==> rows[k].lastSeen.value <= last))
            && ((exists k :: k in rows && rows[k].firstSeen == first)
                || ((forall k :: k in rows ==> rows[k].firstSeen == 0) && first == if e.Delta? then w.index.lastFirstSeen else 0))
            && ((exists k :: k in rows && rows[k].lastSeen == Some(last))
                || ((forall k :: k in rows && rows[k].lastSeen.Some? ==> rows[k].lastSeen.value == 0)
                    && last == if e.Delta? then w.index.lastSeen else 0))
  {
    var rows := after.index.rows;
    assert forall k :: k in rows ==> rows[k].firstSeen in FirstStamps(rows);
    assert forall k :: k in rows && rows[k].lastSeen.Some? ==> rows[k].lastSeen.value in LastStamps(rows);
  }

  /** A build reads listings first seen at the same time in any order; of two with one identity the first read stays. */
  lemma TiesAreBuilt(w: World, a: Row, b: Row) returns (after: World)
    requires w.live == map[a.key := a, b.key := b] && a.key != b.key && a.firstSeen == b.firstSeen > 0
    requires a.lastSeen == b.lastSeen == None
    ensures Next(w, Build([a, b]), after)
    ensures after.index.rows == if a.ident == b.ident then map[a.ident := a] else map[a.ident := a, b.ident := b]
  {
    var scan := [a, b];
    assert scan[..1] == [a] && [a][..0] == [];
    var one := Ignored(map[], [a]);
    assert Ignored(map[], [a]) == Ignored(map[], [])[a.ident := a] && Ignored(map[], []) == map[];
    var rows := Ignored(map[], scan);
    assert rows == if b.ident in one then one else one[b.ident := b];
    after := w.(index := Index(rows, a.firstSeen, 0));
    assert a.ident in rows && rows[a.ident] == a && a.firstSeen in FirstStamps(rows);
    assert w.live[a.key] == a && w.live[b.key] == b;
  }

  lemma ReplacedOne(rows: map<Ident, Row>, r: Row)
    ensures Replaced(rows, [r]) == rows[r.ident := r]
  {
    assert [r][..0] == [];
  }

  /** The maxima of a snapshot with one row. */
  lemma SingleMark(rows: map<Ident, Row>, r: Row, prev: nat)
    requires rows == map["x" := r] && r.firstSeen > 0 && r.lastSeen.Some? && r.lastSeen.value > 0
    ensures IsMaxOr(FirstStamps(rows), prev, r.firstSeen) && IsMaxOr(LastStamps(rows), prev, r.lastSeen.value)
  {
    assert "x" in rows && rows["x"] == r;
    assert r.firstSeen in FirstStamps(rows) && r.lastSeen.value in LastStamps(rows);
  }

  const NEWER := Row("b", "x", 2, Some(4), false, "")
  const WITHDRAWN := Row("a", "x", 1, Some(5), true, "")
  const TWINS := World(map["a" := WITHDRAWN, "b" := NEWER], {WITHDRAWN, NEWER}, Index(map["x" := NEWER], 2, 4))

  lemma TwinsScanned()
    ensures Scans([NEWER], set r | r in TWINS.live.Values && IsFresh(r, 2))
    ensures Scans([WITHDRAWN], set r | r in TWINS.live.Values && IsWithdrawn(r, 4))
  {
    assert TWINS.live["a"] == WITHDRAWN && TWINS.live["b"] == NEWER;
    assert TWINS.live.Values == {WITHDRAWN, NEWER};
  }

  lemma TwinsSound()
    ensures Inv(TWINS)
  {
    SingleMark(TWINS.index.rows, NEWER, 0);
  }

  /** The second pass can lower the watermark, by replacing the newest row of an identity with an older withdrawn
      one; by CoverageAfterDelta that loses nothing. */
  lemma WithdrawnRowLowersTheMark()
    ensures Inv(TWINS)
    ensures Next(TWINS, Delta([NEWER], [WITHDRAWN]), TWINS.(index := Index(map["x" := WITHDRAWN], 1, 5)))
  {
    TwinsSound();
    TwinsScanned();
    ReplacedOne(TWINS.index.rows, NEWER);
    ReplacedOne(TWINS.index.rows, WITHDRAWN);
    var after := map["x" := WITHDRAWN];
    assert TWINS.index.rows["x" := NEWER] == TWINS.index.rows;
    assert TWINS.index.rows["x" := WITHDRAWN] == after;
    SingleMark(after, WITHDRAWN, 2);
    SingleMark(after, WITHDRAWN, 4);
  }

  /** The snapshot as the program maintains it. */
  class Snapshot {
    var rows: map<Ident, Row>
    var lastFirstSeen: nat
    var lastSeen: nat

    constructor ()
      ensures Value() == START.index
    {
      rows, lastFirstSeen, lastSeen := map[], 0, 0;
    }

    function Value(): Index
      reads this
    {
      Index(rows, lastFirstSeen, lastSeen)
    }

    method BuildFull(ghost live: map<Key, Row>, scan: seq<Row>)
      requires Scans(scan, live.Values) && NewestFirst(scan)
      modifies this
      ensures BuildStep(live, scan, Value())
    {
      var built := map[];
      for i := 0 to |scan|
        invariant built == Ignored(map[], scan[..i])
      {
        assert scan[..i + 1][..i] == scan[..i];
        if scan[i].ident !in built {
          built := built[scan[i].ident := scan[i]];
        }
      }
      assert scan[..|scan|] == scan;
      rows := built;
      lastFirstSeen := MaxOr(FirstStamps(rows), 0);
      lastSeen := MaxOr(LastStamps(rows), 0);
    }

    method RefreshDelta(ghost live: map<Key, Row>, added: seq<Row>, withdrawn: seq<Row>)
      requires Scans(added, set r | r in live.Values && IsFresh(r, lastFirstSeen))
      requires Scans(withdrawn, set r | r in live.Values && IsWithdrawn(r, lastSeen))
      modifies this
      ensures DeltaStep(live, old(Value()), added, withdrawn, Value())
    {
      if lastFirstSeen == 0 {
        return;
      }
      rows := ReplaceAll(rows, added);
      rows := ReplaceAll(rows, withdrawn);
      lastFirstSeen := MaxOr(FirstStamps(rows), lastFirstSeen);
      lastSeen := MaxOr(LastStamps(rows), lastSeen);
    }
  }

  method ReplaceAll(rows: map<Ident, Row>, scan: seq<Row>) returns (after: map<Ident, Row>)
    ensures after == Replaced(rows, scan)
  {
    after := rows;
    for i := 0 to |scan|
      invariant after == Replaced(rows, scan[..i])
    {
      assert scan[..i + 1][..i] == scan[..i];
      after := after[scan[i].ident := scan[i]];
    }
    assert scan[..|scan|] == scan;
  }

  method MaxOr(stamps: set<nat>, prev: nat) returns (w: nat)
    ensures IsMaxOr(stamps, prev, w)
  {
    var top := 0;
    var left := stamps;
    while left != {}
      invariant left <= stamps
      invariant forall v :: v in stamps ==> v in left || v <= top
      invariant top == 0 || top in stamps
      decreases |left|
    {
      var v :| v in left;
      left := left - {v};
      if v > top { top := v; }
    }
    w := if top == 0 then prev else top;
  }
}
