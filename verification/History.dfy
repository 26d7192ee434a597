/** Installations and their event log: the current rows, the log, and entries still to be written by a request
    that has already changed its row. */
module History {
  import opened Common

  type Version = string
  datatype Key = Key(tenant: string, app: string)
  datatype Row = Row(version: Version, enabled: bool)

  datatype Action = Installed(to: Version) | Upgraded(from: Version, to: Version) | Enabled | Disabled
  datatype Entry = Entry(key: Key, action: Action)

  type Request = nat

  datatype Db = Db(installs: map<Key, Row>, events: seq<Entry>, open: map<Request, seq<Entry>>)

  datatype Release = Release(app: string, version: Version)

  /** The atomic writes. An install is one transaction. Setting a status and upgrading change rows first and log
      afterwards, entry by entry; a request can stop in between. */
  datatype Step =
    | Install(tenant: string, releases: seq<Release>)
    | Status(req: Request, key: Key, enabled: bool)
    | Upgrade(req: Request, app: string, version: Version, rows: seq<Key>)
    | Log(req: Request)
    | Stop(req: Request)

  function InstallOne(db: Db, k: Key, version: Version): Db {
    db.(installs := db.installs[k := Row(version, true)], events := db.events + [Entry(k, Installed(version))])
  }

  function InstallAll(db: Db, tenant: string, releases: seq<Release>): (d: Db)
    ensures d.open == db.open
    decreases |releases|
  {
    if releases == [] then db
    else InstallAll(InstallOne(db, Key(tenant, releases[0].app), releases[0].version), tenant, releases[1..])
  }

  /** The rows an upgrade to this version changes. */
  function Behind(installs: map<Key, Row>, app: string, version: Version): set<Key> {
    set k | k in installs && k.app == app && installs[k].version != version
  }

  function Raised(installs: map<Key, Row>, app: string, version: Version): map<Key, Row> {
    map k | k in installs :: if k.app == app then installs[k].(version := version) else installs[k]
  }

  function UpgradeEntries(installs: map<Key, Row>, version: Version, rows: seq<Key>): (es: seq<Entry>)
    requires forall k :: k in rows ==> k in installs
  {
    seq(|rows|, i requires 0 <= i < |rows| => Entry(rows[i], Upgraded(installs[rows[i]].version, version)))
  }

  /** The statement can run: a request has at most one write open, and an upgrade returns each changed row once. */
  ghost predicate CanRun(db: Db, s: Step) {
    match s
    case Install(_, _) => true
    case Status(req, key, _) => req !in db.open
    case Upgrade(req, app, version, rows) =>
      req !in db.open && Distinct(rows) && forall k :: k in rows <==> k in Behind(db.installs, app, version)
    case Log(req) => req in db.open && db.open[req] != []
    case Stop(req) => req in db.open
  }

  function Without(open: map<Request, seq<Entry>>, req: Request): map<Request, seq<Entry>> {
    map r | r in open && r != req :: open[r]
  }

  function StatusAction(enabled: bool): Action {
    if enabled then Enabled else Disabled
  }

  ghost function Do(db: Db, s: Step): Db
    requires CanRun(db, s)
  {
    match s
    case Install(tenant, releases) => InstallAll(db, tenant, releases)
    case Status(req, key, enabled) =>
      if key !in db.installs then db
      else db.(installs := db.installs[key := db.installs[key].(enabled := enabled)],
               open := db.open[req := [Entry(key, StatusAction(enabled))]])
    case Upgrade(req, app, version, rows) =>
      db.(installs := Raised(db.installs, app, version),
        open := db.open[req := UpgradeEntries(db.installs, version, rows)])
    case Log(req) =>
      db.(events := db.events + [db.open[req][0]], open := db.open[req := db.open[req][1..]])
    case Stop(req) => db.(open := Without(db.open, req))
  }

  // ---- replay ---------------------------------------------------------------------------------------------

  function Applied(row: Option<Row>, a: Action): Option<Row> {
    match a
    case Installed(to) => Some(Row(to, true))
    case Upgraded(_, to) => if row.Some? then Some(row.value.(version := to)) else None
    case Enabled => if row.Some? then Some(row.value.(enabled := true)) else None
    case Disabled => if row.Some? then Some(row.value.(enabled := false)) else None
  }

  /** What the log says about one installation. */
  function Replay(events: seq<Entry>, k: Key): Option<Row> {
    if events == [] then None
    else
      var n := |events| - 1;
      var before := Replay(events[..n], k);
      if events[n].key == k then Applied(before, events[n].action) else before
  }

  function Current(db: Db, k: Key): Option<Row> {
    if k in db.installs then Some(db.installs[k]) else None
  }

  /** An upgrade starts from the version the log arrived at. */
  predicate Fits(row: Option<Row>, a: Action) {
    a.Upgraded? ==> row.Some? && row.value.version == a.from
  }

  ghost predicate LogFits(events: seq<Entry>) {
    forall i :: 0 <= i < |events| ==> Fits(Replay(events[..i], events[i].key), events[i].action)
  }

  /** The entry is still to be written. */
  predicate IsOpen(db: Db, req: Request, i: nat) {
    req in db.open && i < |db.open[req]|
  }

  /** An entry of this kind, an upgrade or a status change, is still to be written for the installation. */
  ghost predicate KindOpen(db: Db, k: Key, upgrade: bool) {
    exists req, i: nat :: OpenFor(db, req, i, k, upgrade)
  }

  predicate OpenFor(db: Db, req: Request, i: nat, k: Key, upgrade: bool) {
    IsOpen(db, req, i) && db.open[req][i].key == k && db.open[req][i].action.Upgraded? == upgrade
  }

  /** At most one upgrade and one status change are open for an installation. */
  ghost predicate OnePerKind(db: Db) {
    forall r, i: nat, r', i': nat, k, upgrade ::
      OpenFor(db, r, i, k, upgrade) && OpenFor(db, r', i', k, upgrade) ==> r == r' && i == i'
  }

  /** What an open entry will say is what its change did to the row, and an upgrade starts where the log stands. */
  predicate OpenAgrees(db: Db, e: Entry) {
    var was, now := Replay(db.events, e.key), Current(db, e.key);
    was.Some? && now.Some? &&
    match e.action
    case Installed(_) => false
    case Upgraded(from, to) => was.value.version == from && now.value.version == to
    case Enabled => now.value.enabled
    case Disabled => !now.value.enabled
  }

  /** The log gives the row, but for what is open: the version while an upgrade is, the status while a change is. */
  ghost predicate RowAgrees(db: Db, k: Key) {
    var was, now := Replay(db.events, k), Current(db, k);
    && (was.Some? <==> now.Some?)
    && (was.Some? && !KindOpen(db, k, true) ==> was.value.version == now.value.version)
    && (was.Some? && !KindOpen(db, k, false) ==> was.value.enabled == now.value.enabled)
  }

  ghost predicate Agrees(db: Db) {
    && OnePerKind(db) && LogFits(db.events)
    && (forall k :: RowAgrees(db, k))
    && (forall r, i: nat :: IsOpen(db, r, i) ==> OpenAgrees(db, db.open[r][i]))
  }

  /** Nothing is to be written for the installation. */
  ghost predicate Settled(db: Db, k: Key) {
    !KindOpen(db, k, true) && !KindOpen(db, k, false)
  }

  lemma SettledAgrees(db: Db, k: Key)
    requires Agrees(db) && Settled(db, k)
    ensures Replay(db.events, k) == Current(db, k)
  {
    assert RowAgrees(db, k);
  }

  /** A change waits until the entry of an earlier change of the same kind is written, an install until nothing is to be
      written for the installation, and nothing to be written is given up. A status change and an upgrade of one
      installation may overlap. */
  ghost predicate Paired(db: Db, s: Step) {
    match s
    case Install(tenant, releases) => forall r :: r in releases ==> Settled(db, Key(tenant, r.app))
    case Status(_, key, _) => !KindOpen(db, key, false)
    case Upgrade(_, _, _, rows) => forall k :: k in rows ==> !KindOpen(db, k, true)
    case Log(_) => true
    case Stop(req) => req in db.open && db.open[req] == []
  }

  lemma ReplayNext(events: seq<Entry>, e: Entry, k: Key)
    ensures Replay(events + [e], k) == if e.key == k then Applied(Replay(events, k), e.action) else Replay(events, k)
  {
    assert (events + [e])[..|events|] == events;
  }

  lemma LogFitsNext(events: seq<Entry>, e: Entry)
    requires LogFits(events) && Fits(Replay(events, e.key), e.action)
    ensures LogFits(events + [e])
  {
    var es := events + [e];
    forall i | 0 <= i < |es| ensures Fits(Replay(es[..i], es[i].key), es[i].action) {
      assert es[..i] == events[..i];
      if i == |events| { assert events[..i] == events; }
    }
  }

  // ---- every paired step keeps the log in agreement ----------------------------------------------------------

  lemma InstallOneAgrees(db: Db, k: Key, version: Version)
    requires Agrees(db) && Settled(db, k)
    ensures Agrees(InstallOne(db, k, version))
  {
    var db' := InstallOne(db, k, version);
    var e := Entry(k, Installed(version));
    LogFitsNext(db.events, e);
    SameOpen(db, db');
    forall x ensures RowAgrees(db', x) {
      ReplayNext(db.events, e, x);
      assert RowAgrees(db, x);
    }
    forall r, i: nat | IsOpen(db', r, i) ensures OpenAgrees(db', db'.open[r][i]) {
      var o := db.open[r][i];
      assert IsOpen(db, r, i) && OpenFor(db, r, i, o.key, o.action.Upgraded?);
      ReplayNext(db.events, e, o.key);
    }
  }

  lemma {:induction false} InstallAllAgrees(db: Db, tenant: string, releases: seq<Release>)
    requires Agrees(db) && forall r :: r in releases ==> Settled(db, Key(tenant, r.app))
    ensures Agrees(InstallAll(db, tenant, releases))
    decreases |releases|
  {
    if releases != [] {
      var db' := InstallOne(db, Key(tenant, releases[0].app), releases[0].version);
      InstallOneAgrees(db, Key(tenant, releases[0].app), releases[0].version);
      SameOpen(db, db');
      forall r | r in releases[1..] ensures Settled(db', Key(tenant, r.app)) { assert r in releases; }
      InstallAllAgrees(db', tenant, releases[1..]);
    }
  }

  lemma SameOpen(db: Db, db': Db)
    requires db'.open == db.open
    ensures forall k, upgrade :: KindOpen(db', k, upgrade) <==> KindOpen(db, k, upgrade)
    ensures OnePerKind(db) ==> OnePerKind(db')
  {
    forall r, i: nat, k, upgrade ensures OpenFor(db', r, i, k, upgrade) <==> OpenFor(db, r, i, k, upgrade) {}
    forall k, upgrade ensures KindOpen(db', k, upgrade) <==> KindOpen(db, k, upgrade) {
      if r, i: nat :| OpenFor(db', r, i, k, upgrade) { assert OpenFor(db, r, i, k, upgrade); }
      if r, i: nat :| OpenFor(db, r, i, k, upgrade) { assert OpenFor(db', r, i, k, upgrade); }
    }
  }

  predicate Names(entries: seq<Entry>, k: Key) {
    exists i :: 0 <= i < |entries| && entries[i].key == k
  }

  /** What a request that opens entries of one kind does to the rows: only rows it names, only their half. */
  predicate Changes(db: Db, installs: map<Key, Row>, entries: seq<Entry>, upgrade: bool, k: Key) {
    var was, now := Current(db, k), Current(db.(installs := installs), k);
    && (was.Some? <==> now.Some?)
    && (was.Some? && (!Names(entries, k) || !upgrade) ==> was.value.version == now.value.version)
    && (was.Some? && (!Names(entries, k) || upgrade) ==> was.value.enabled == now.value.enabled)
  }

  /** Opening entries of one kind: the shape shared by setting a status and upgrading. */
  lemma OpenAgree(db: Db, req: Request, installs: map<Key, Row>, entries: seq<Entry>, upgrade: bool)
    requires Agrees(db) && req !in db.open
    requires forall i :: 0 <= i < |entries| ==>
      entries[i].action.Upgraded? == upgrade && !KindOpen(db, entries[i].key, upgrade)
    requires forall i, j :: 0 <= i < |entries| && 0 <= j < |entries| && entries[i].key == entries[j].key ==> i == j
    requires forall i :: 0 <= i < |entries| ==> OpenAgrees(db.(installs := installs), entries[i])
    requires forall k :: Changes(db, installs, entries, upgrade, k)
    ensures Agrees(db.(installs := installs, open := db.open[req := entries]))
  {
    var db' := db.(installs := installs, open := db.open[req := entries]);
    forall r, i: nat, k, u | r != req ensures OpenFor(db', r, i, k, u) <==> OpenFor(db, r, i, k, u) {}
    forall i: nat, k, u ensures OpenFor(db', req, i, k, u) ==>
      u == upgrade && !KindOpen(db, k, u) && Names(entries, k) {}
    OpenedOnce(db, db', req, upgrade);
    forall k ensures RowAgrees(db', k) { OpenedRow(db, req, installs, entries, upgrade, k); }
    forall r, i: nat | IsOpen(db', r, i) ensures OpenAgrees(db', db'.open[r][i]) {
      if r != req {
        var e := db.open[r][i];
        assert IsOpen(db, r, i) && OpenAgrees(db, e) && OpenFor(db, r, i, e.key, e.action.Upgraded?);
        assert Changes(db, installs, entries, upgrade, e.key);
      }
    }
  }

  lemma OpenedOnce(db: Db, db': Db, req: Request, upgrade: bool)
    requires OnePerKind(db) && req in db'.open
    requires forall r, i: nat, k, u :: r != req ==> (OpenFor(db', r, i, k, u) <==> OpenFor(db, r, i, k, u))
    requires forall i: nat, k, u :: OpenFor(db', req, i, k, u) ==> u == upgrade && !KindOpen(db, k, u)
    requires var es := db'.open[req];
      forall i, j :: 0 <= i < |es| && 0 <= j < |es| && es[i].key == es[j].key ==> i == j
    ensures OnePerKind(db')
  {
    forall r, i: nat, r', i': nat, k, u | OpenFor(db', r, i, k, u) && OpenFor(db', r', i', k, u)
      ensures r == r' && i == i'
    {
      if r != req { assert OpenFor(db, r, i, k, u); }
      if r' != req { assert OpenFor(db, r', i', k, u); }
    }
  }

  lemma OpenedRow(db: Db, req: Request, installs: map<Key, Row>, entries: seq<Entry>, upgrade: bool, k: Key)
    requires RowAgrees(db, k) && req !in db.open && Changes(db, installs, entries, upgrade, k)
    requires forall i :: 0 <= i < |entries| ==> entries[i].action.Upgraded? == upgrade
    ensures RowAgrees(db.(installs := installs, open := db.open[req := entries]), k)
  {
    var db' := db.(installs := installs, open := db.open[req := entries]);
    forall u ensures KindOpen(db, k, u) ==> KindOpen(db', k, u) {
      if r, i: nat :| OpenFor(db, r, i, k, u) { assert OpenFor(db', r, i, k, u); }
    }
    if i: nat :| i < |entries| && entries[i].key == k { assert OpenFor(db', req, i, k, upgrade); }
  }

  lemma StatusAgrees(db: Db, req: Request, key: Key, enabled: bool)
    requires Agrees(db) && req !in db.open && !KindOpen(db, key, false)
    ensures Agrees(Do(db, Status(req, key, enabled)))
  {
    if key in db.installs {
      var entries := [Entry(key, StatusAction(enabled))];
      var installs := db.installs[key := db.installs[key].(enabled := enabled)];
      assert entries[0].key == key && Names(entries, key);
      assert RowAgrees(db, key);
      OpenAgree(db, req, installs, entries, false);
    }
  }

  lemma UpgradeAgrees(db: Db, req: Request, app: string, version: Version, rows: seq<Key>)
    requires Agrees(db) && CanRun(db, Upgrade(req, app, version, rows)) && Paired(db, Upgrade(req, app, version, rows))
    ensures Agrees(Do(db, Upgrade(req, app, version, rows)))
  {
    var entries := UpgradeEntries(db.installs, version, rows);
    var installs := Raised(db.installs, app, version);
    forall i | 0 <= i < |entries|
      ensures OpenAgrees(db.(installs := installs), entries[i]) && !KindOpen(db, entries[i].key, true)
    {
      assert rows[i] in rows && rows[i] in Behind(db.installs, app, version);
      assert RowAgrees(db, rows[i]);
    }
    forall k ensures Changes(db, installs, entries, true, k) {
      if k in Behind(db.installs, app, version) {
        var i :| 0 <= i < |rows| && rows[i] == k;
        assert entries[i].key == k;
      }
    }
    OpenAgree(db, req, installs, entries, true);
  }

  /** Where an entry stands after the first entry of req has been written, and where it stood before. */
  function Before(req: Request, r: Request, i: nat): nat {
    if r == req then i + 1 else i
  }

  lemma LoggedOpen(db: Db, req: Request)
    requires CanRun(db, Log(req)) && OnePerKind(db)
    ensures var db', e := Do(db, Log(req)), db.open[req][0];
      && OnePerKind(db') && !KindOpen(db', e.key, e.action.Upgraded?)
      && (forall r, i: nat :: IsOpen(db', r, i) ==>
           IsOpen(db, r, Before(req, r, i)) && db'.open[r][i] == db.open[r][Before(req, r, i)])
      && (forall k, u :: (k != e.key || u != e.action.Upgraded?) ==> (KindOpen(db', k, u) <==> KindOpen(db, k, u)))
  {
    var db', e := Do(db, Log(req)), db.open[req][0];
    assert OpenFor(db, req, 0, e.key, e.action.Upgraded?);
    forall r, i: nat, k, u ensures OpenFor(db', r, i, k, u) <==> OpenFor(db, r, Before(req, r, i), k, u) {}
    forall r, i: nat, r', i': nat, k, u | OpenFor(db', r, i, k, u) && OpenFor(db', r', i', k, u)
      ensures r == r' && i == i'
    {
      assert OpenFor(db, r, Before(req, r, i), k, u) && OpenFor(db, r', Before(req, r', i'), k, u);
    }
    forall r, i: nat ensures !OpenFor(db', r, i, e.key, e.action.Upgraded?) {
      if r == req { assert Before(req, r, i) != 0; }
    }
    forall k, u | k != e.key || u != e.action.Upgraded? ensures KindOpen(db', k, u) <==> KindOpen(db, k, u) {
      if r, i: nat :| OpenFor(db', r, i, k, u) { assert OpenFor(db, r, Before(req, r, i), k, u); }
      if r, i: nat :| OpenFor(db, r, i, k, u) {
        var j := if r == req then i - 1 else i;
        assert Before(req, r, j) == i && OpenFor(db', r, j, k, u);
      }
    }
  }

  lemma LogAgrees(db: Db, req: Request)
    requires Agrees(db) && CanRun(db, Log(req))
    ensures Agrees(Do(db, Log(req)))
  {
    var db', e := Do(db, Log(req)), db.open[req][0];
    assert IsOpen(db, req, 0) && OpenAgrees(db, e) && RowAgrees(db, e.key);
    LogFitsNext(db.events, e);
    LoggedOpen(db, req);
    forall k ensures RowAgrees(db', k) {
      ReplayNext(db.events, e, k);
      assert RowAgrees(db, k);
    }
    forall r, i: nat | IsOpen(db', r, i) ensures OpenAgrees(db', db'.open[r][i]) {
      var o := db.open[r][Before(req, r, i)];
      assert IsOpen(db, r, Before(req, r, i)) && OpenAgrees(db, o);
      ReplayNext(db.events, e, o.key);
      assert OpenFor(db', r, i, o.key, o.action.Upgraded?);
    }
  }

  lemma StopAgrees(db: Db, req: Request)
    requires Agrees(db) && CanRun(db, Stop(req)) && Paired(db, Stop(req))
    ensures Agrees(Do(db, Stop(req)))
  {
    var db' := Do(db, Stop(req));
    forall r, i: nat, k, u ensures OpenFor(db', r, i, k, u) <==> OpenFor(db, r, i, k, u) {}
    forall k, u ensures KindOpen(db, k, u) ==> KindOpen(db', k, u) {
      if r, i: nat :| OpenFor(db, r, i, k, u) { assert OpenFor(db', r, i, k, u); }
    }
    forall k ensures RowAgrees(db', k) { assert RowAgrees(db, k); }
    forall r, i: nat | IsOpen(db', r, i) ensures OpenAgrees(db', db'.open[r][i]) {
      assert IsOpen(db, r, i) && OpenAgrees(db, db.open[r][i]);
    }
    assert OnePerKind(db');
  }

  lemma DoAgrees(db: Db, s: Step)
    requires Agrees(db) && CanRun(db, s) && Paired(db, s)
    ensures Agrees(Do(db, s))
  {
    match s
    case Install(tenant, releases) => InstallAllAgrees(db, tenant, releases);
    case Status(req, key, enabled) => StatusAgrees(db, req, key, enabled);
    case Upgrade(req, app, version, rows) => UpgradeAgrees(db, req, app, version, rows);
    case Log(req) => LogAgrees(db, req);
    case Stop(req) => StopAgrees(db, req);
  }

  /** A run in which every step can run. */
  ghost predicate Runs(db: Db, steps: seq<Step>)
    decreases |steps|
  {
    steps == [] || (CanRun(db, steps[0]) && Runs(Do(db, steps[0]), steps[1..]))
  }

  ghost function Run(db: Db, steps: seq<Step>): Db
    requires Runs(db, steps)
    decreases |steps|
  {
    if steps == [] then db else Run(Do(db, steps[0]), steps[1..])
  }

  ghost predicate RunPaired(db: Db, steps: seq<Step>)
    requires Runs(db, steps)
    decreases |steps|
  {
    steps == [] || (Paired(db, steps[0]) && RunPaired(Do(db, steps[0]), steps[1..]))
  }

  const EMPTY := Db(map[], [], map[])

  lemma {:induction false} RunAgrees(db: Db, steps: seq<Step>)
    requires Agrees(db) && Runs(db, steps) && RunPaired(db, steps)
    ensures Agrees(Run(db, steps))
    decreases |steps|
  {
    if steps != [] {
      DoAgrees(db, steps[0]);
      RunAgrees(Do(db, steps[0]), steps[1..]);
    }
  }

  /** Over any run in which nothing to be written is given up, changes of one kind of one installation wait for each
      other, and an install waits for both: replaying the log gives the current version and status of every
      installation for which nothing is to be written, and every upgrade entry starts from the version the log had
      arrived at. A status change and an upgrade may overlap. */
  lemma ReplayIsCurrent(steps: seq<Step>, k: Key)
    requires Runs(EMPTY, steps) && RunPaired(EMPTY, steps)
    ensures var db := Run(EMPTY, steps);
      && LogFits(db.events) && RowAgrees(db, k) && (Settled(db, k) ==> Replay(db.events, k) == Current(db, k))
  {
    RunAgrees(EMPTY, steps);
    assert RowAgrees(Run(EMPTY, steps), k);
  }

  // ---- where agreement is lost ---------------------------------------------------------------------------------

  /** A value of one half of a row: the version, or the status. */
  datatype Half = OfVersion(v: Version) | OfStatus(enabled: bool)

  function HalfOf(row: Option<Row>, version: bool): Option<Half> {
    if row.None? then None
    else Some(if version then OfVersion(row.value.version) else OfStatus(row.value.enabled))
  }

  /** What an entry says of this half. */
  function Says(a: Action, version: bool): Option<Half> {
    match a
    case Installed(to) => Some(if version then OfVersion(to) else OfStatus(true))
    case Upgraded(_, to) => if version then Some(OfVersion(to)) else None
    case Enabled => if version then None else Some(OfStatus(true))
    case Disabled => if version then None else Some(OfStatus(false))
  }

  /** What the last entry that says anything of this half of the installation says. */
  function LastLogged(events: seq<Entry>, k: Key, version: bool): Option<Half> {
    if events == [] then None
    else
      var n := |events| - 1;
      if events[n].key == k && Says(events[n].action, version).Some? then Says(events[n].action, version)
      else LastLogged(events[..n], k, version)
  }

  function LastInstalled(releases: seq<Release>, app: string): Option<Version> {
    if releases == [] then None
    else
      var n := |releases| - 1;
      if releases[n].app == app then Some(releases[n].version) else LastInstalled(releases[..n], app)
  }

  /** The step writes this half of the row. */
  predicate Puts(db: Db, s: Step, k: Key, version: bool) {
    match s
    case Install(tenant, releases) => tenant == k.tenant && LastInstalled(releases, k.app).Some?
    case Status(_, key, _) => !version && key == k && k in db.installs
    case Upgrade(_, app, v, _) => version && k in Behind(db.installs, app, v)
    case _ => false
  }

  function Put(db: Db, s: Step, k: Key, version: bool): Option<Half> {
    if !Puts(db, s, k, version) then None
    else
      match s
      case Install(tenant, releases) =>
        Some(if version then OfVersion(LastInstalled(releases, k.app).value) else OfStatus(true))
      case Status(_, _, enabled) => Some(OfStatus(enabled))
      case Upgrade(_, _, v, _) => Some(OfVersion(v))
      case _ => None
  }

  /** What the last step of the run that changed this half of the row put there. */
  ghost function LastPut(db: Db, steps: seq<Step>, k: Key, version: bool): Option<Half>
    requires Runs(db, steps)
    decreases |steps|
  {
    if steps == [] then None
    else
      var later := LastPut(Do(db, steps[0]), steps[1..], k, version);
      if later.Some? then later else Put(db, steps[0], k, version)
  }

  lemma {:induction false} LastLoggedReplayed(events: seq<Entry>, k: Key, version: bool)
    requires Replay(events, k).Some?
    ensures LastLogged(events, k, version) == HalfOf(Replay(events, k), version)
  {
    var n := |events| - 1;
    if events[n].key != k || Says(events[n].action, version).None? { LastLoggedReplayed(events[..n], k, version); }
  }

  lemma {:induction false} InstallAllPuts(db: Db, tenant: string, releases: seq<Release>, k: Key, version: bool)
    ensures HalfOf(Current(InstallAll(db, tenant, releases), k), version) ==
      if tenant == k.tenant && LastInstalled(releases, k.app).Some?
      then Some(if version then OfVersion(LastInstalled(releases, k.app).value) else OfStatus(true))
      else HalfOf(Current(db, k), version)
    decreases |releases|
  {
    if releases != [] {
      var first := InstallOne(db, Key(tenant, releases[0].app), releases[0].version);
      InstallAllPuts(first, tenant, releases[1..], k, version);
      LastInstalledFirst(releases, k.app);
    }
  }

  lemma {:induction false} LastInstalledFirst(releases: seq<Release>, app: string)
    requires releases != []
    ensures LastInstalled(releases, app) ==
      if LastInstalled(releases[1..], app).Some? then LastInstalled(releases[1..], app)
      else if releases[0].app == app then Some(releases[0].version) else None
  {
    var n := |releases| - 1;
    if n > 0 {
      LastInstalledFirst(releases[..n], app);
      assert releases[..n][1..] == releases[1..][..n - 1];
    }
  }

  lemma StepPuts(db: Db, s: Step, k: Key, version: bool)
    requires CanRun(db, s)
    ensures HalfOf(Current(Do(db, s), k), version) ==
      if Puts(db, s, k, version) then Put(db, s, k, version) else HalfOf(Current(db, k), version)
  {
    if s.Install? { InstallAllPuts(db, s.tenant, s.releases, k, version); }
  }

  lemma {:induction false} RunPuts(db: Db, steps: seq<Step>, k: Key, version: bool)
    requires Runs(db, steps)
    ensures HalfOf(Current(Run(db, steps), k), version) ==
      var put := LastPut(db, steps, k, version); if put.Some? then put else HalfOf(Current(db, k), version)
    decreases |steps|
  {
    if steps != [] {
      StepPuts(db, steps[0], k, version);
      RunPuts(Do(db, steps[0]), steps[1..], k, version);
    }
  }

  /** An installation's first entry is written with its row. */
  ghost predicate Recorded(db: Db, k: Key) {
    k in db.installs ==> Replay(db.events, k).Some?
  }

  lemma {:induction false} InstallAllRecorded(db: Db, tenant: string, releases: seq<Release>, k: Key)
    requires Recorded(db, k)
    ensures Recorded(InstallAll(db, tenant, releases), k)
    decreases |releases|
  {
    if releases != [] {
      var x, version := Key(tenant, releases[0].app), releases[0].version;
      ReplayNext(db.events, Entry(x, Installed(version)), k);
      InstallAllRecorded(InstallOne(db, x, version), tenant, releases[1..], k);
    }
  }

  lemma {:induction false} RunRecorded(db: Db, steps: seq<Step>, k: Key)
    requires Runs(db, steps) && Recorded(db, k)
    ensures Recorded(Run(db, steps), k)
    decreases |steps|
  {
    if steps != [] {
      match steps[0] {
        case Install(tenant, releases) => InstallAllRecorded(db, tenant, releases, k);
        case Log(req) => ReplayNext(db.events, db.open[req][0], k);
        case _ =>
      }
      RunRecorded(Do(db, steps[0]), steps[1..], k);
    }
  }

  /** Over any run at all, whatever overlaps, is given up or is still owed: each half of an installation agrees with the
      log exactly when the last entry about it says what the last change of the row put there. */
  lemma AgreesExactly(steps: seq<Step>, k: Key, version: bool)
    requires Runs(EMPTY, steps) && k in Run(EMPTY, steps).installs
    ensures var d := Run(EMPTY, steps);
      SameHalf(Replay(d.events, k), Current(d, k), version) <==>
      LastLogged(d.events, k, version) == LastPut(EMPTY, steps, k, version)
  {
    RunRecorded(EMPTY, steps, k);
    LastLoggedReplayed(Run(EMPTY, steps).events, k, version);
    RunPuts(EMPTY, steps, k, version);
  }

  /** The step sets this half of the installation's row: the version, or the status. */
  predicate Sets(s: Step, k: Key, version: bool) {
    match s
    case Install(tenant, releases) => tenant == k.tenant && exists r :: r in releases && r.app == k.app
    case Status(_, key, _) => !version && key == k
    case Upgrade(_, app, _, _) => version && app == k.app
    case _ => false
  }

  predicate SameHalf(x: Option<Row>, y: Option<Row>, version: bool) {
    x.Some? && y.Some? && if version then x.value.version == y.value.version else x.value.enabled == y.value.enabled
  }

  /** Nothing to be written says anything of this half of the row. */
  ghost predicate Quiet(db: Db, k: Key, version: bool) {
    !KindOpen(db, k, version) && forall r, i: nat :: IsOpen(db, r, i) ==> !db.open[r][i].action.Installed?
  }

  /** Between two states this half of the installation is unchanged, in the row and in the log. */
  ghost predicate HalfKept(db: Db, d: Db, k: Key, version: bool) {
    SameHalf(Current(db, k), Current(d, k), version) && SameHalf(Replay(db.events, k), Replay(d.events, k), version)
  }

  lemma {:induction false} InstallAllElsewhere(db: Db, tenant: string, releases: seq<Release>, k: Key)
    requires tenant != k.tenant || forall r :: r in releases ==> r.app != k.app
    ensures var d := InstallAll(db, tenant, releases);
      Current(d, k) == Current(db, k) && Replay(d.events, k) == Replay(db.events, k)
    decreases |releases|
  {
    if releases != [] {
      var x, version := Key(tenant, releases[0].app), releases[0].version;
      assert releases[0] in releases;
      ReplayNext(db.events, Entry(x, Installed(version)), k);
      InstallAllElsewhere(InstallOne(db, x, version), tenant, releases[1..], k);
    }
  }

  lemma LogHalfKept(db: Db, req: Request, k: Key, version: bool)
    requires CanRun(db, Log(req)) && Quiet(db, k, version) && Current(db, k).Some? && Replay(db.events, k).Some?
    ensures HalfKept(db, Do(db, Log(req)), k, version)
  {
    var e := db.open[req][0];
    assert IsOpen(db, req, 0);
    assert !OpenFor(db, req, 0, k, version);
    ReplayNext(db.events, e, k);
  }

  lemma StepHalfKept(db: Db, s: Step, k: Key, version: bool)
    requires CanRun(db, s) && !Sets(s, k, version) && Quiet(db, k, version)
    requires Current(db, k).Some? && Replay(db.events, k).Some?
    ensures HalfKept(db, Do(db, s), k, version)
  {
    match s
    case Install(tenant, releases) => InstallAllElsewhere(db, tenant, releases, k);
    case Log(req) => LogHalfKept(db, req, k, version);
    case _ =>
  }

  /** The entry open after the step was open before it, or the step has opened it. */
  lemma OpenedBefore(db: Db, s: Step, r: Request, i: nat) returns (j: nat)
    requires CanRun(db, s) && IsOpen(Do(db, s), r, i)
    ensures var e := Do(db, s).open[r][i];
      (IsOpen(db, r, j) && db.open[r][j] == e) || (!e.action.Installed? && Sets(s, e.key, e.action.Upgraded?))
  {
    j := if s.Log? then Before(s.req, r, i) else i;
    if s.Upgrade? && r == s.req {
      assert s.rows[i] in s.rows && s.rows[i] in Behind(db.installs, s.app, s.version);
    }
  }

  lemma StepQuiet(db: Db, s: Step, k: Key, version: bool)
    requires CanRun(db, s) && !Sets(s, k, version) && Quiet(db, k, version)
    ensures Quiet(Do(db, s), k, version)
  {
    var d := Do(db, s);
    forall r, i: nat | IsOpen(d, r, i) ensures !d.open[r][i].action.Installed? && !OpenFor(d, r, i, k, version) {
      var j := OpenedBefore(db, s, r, i);
      if IsOpen(db, r, j) {
        assert OpenFor(d, r, i, k, version) ==> OpenFor(db, r, j, k, version) || Sets(s, k, version);
      }
    }
  }

  lemma {:induction false} RunHalfKept(db: Db, steps: seq<Step>, k: Key, version: bool)
    requires Runs(db, steps) && (forall s :: s in steps ==> !Sets(s, k, version)) && Quiet(db, k, version)
    requires Current(db, k).Some? && Replay(db.events, k).Some?
    ensures HalfKept(db, Run(db, steps), k, version)
    decreases |steps|
  {
    if steps != [] {
      assert steps[0] in steps;
      StepHalfKept(db, steps[0], k, version);
      StepQuiet(db, steps[0], k, version);
      RunHalfKept(Do(db, steps[0]), steps[1..], k, version);
    }
  }

  lemma AgreedQuiet(db: Db, k: Key)
    requires Agrees(db) && Settled(db, k)
    ensures Quiet(db, k, true) && Quiet(db, k, false)
  {
    forall r, i: nat | IsOpen(db, r, i) ensures !db.open[r][i].action.Installed? {
      assert OpenAgrees(db, db.open[r][i]);
    }
  }

  /** A status change that stops before it logs: until the next install or status change of the installation, whatever
      else is done, the log is wrong about its status exactly when the change changed something. */
  lemma UnloggedStatus(db: Db, req: Request, k: Key, enabled: bool, later: seq<Step>)
    requires Agrees(db) && req !in db.open && Settled(db, k) && k in db.installs
    requires Runs(Do(Do(db, Status(req, k, enabled)), Stop(req)), later)
    requires forall s :: s in later ==> !Sets(s, k, false)
    ensures var d := Run(Do(Do(db, Status(req, k, enabled)), Stop(req)), later);
      SameHalf(Replay(d.events, k), Current(d, k), false) <==> db.installs[k].enabled == enabled
  {
    SettledAgrees(db, k);
    AgreedQuiet(db, k);
    var stopped := Do(Do(db, Status(req, k, enabled)), Stop(req));
    assert stopped == db.(installs := stopped.installs) by { assert stopped.open == db.open; }
    SameOpen(db, stopped);
    forall r, i: nat | IsOpen(stopped, r, i) ensures !stopped.open[r][i].action.Installed? { assert IsOpen(db, r, i); }
    RunHalfKept(stopped, later, k, false);
  }

  /** An upgrade that stops before it has logged an installation it changed: until the next install or upgrade of it,
      the log is wrong about its version. */
  lemma UnloggedUpgrade(db: Db, req: Request, app: string, version: Version, rows: seq<Key>, k: Key, later: seq<Step>)
    requires Agrees(db) && CanRun(db, Upgrade(req, app, version, rows)) && k in rows && Settled(db, k)
    requires Runs(Do(Do(db, Upgrade(req, app, version, rows)), Stop(req)), later)
    requires forall s :: s in later ==> !Sets(s, k, true)
    ensures var d := Run(Do(Do(db, Upgrade(req, app, version, rows)), Stop(req)), later);
      Replay(d.events, k).Some? && k in d.installs && Replay(d.events, k).value.version != d.installs[k].version
  {
    SettledAgrees(db, k);
    AgreedQuiet(db, k);
    assert k in Behind(db.installs, app, version);
    var stopped := Do(Do(db, Upgrade(req, app, version, rows)), Stop(req));
    assert stopped == db.(installs := stopped.installs) by { assert stopped.open == db.open; }
    SameOpen(db, stopped);
    forall r, i: nat | IsOpen(stopped, r, i) ensures !stopped.open[r][i].action.Installed? { assert IsOpen(db, r, i); }
    RunHalfKept(stopped, later, k, true);
  }

  lemma LogBoth(db: Db, a: Request, b: Request)
    requires a != b && a in db.open && b in db.open && |db.open[a]| == 1 && |db.open[b]| == 1
    ensures var d := Do(Do(db, Log(a)), Log(b));
      && d.events == db.events + [db.open[a][0]] + [db.open[b][0]] && d.installs == db.installs
      && d.open == db.open[a := []][b := []]
  {
  }

  /** Two status changes of one installation, both rows changed before either is logged: log and row agree in the end
      exactly when the entries are written in the order of the changes or say the same. */
  lemma OverlappingStatuses(db: Db, k: Key, a: Request, b: Request, x: bool, y: bool, inOrder: bool)
    requires k in db.installs && Replay(db.events, k) == Current(db, k) && a != b && a !in db.open && b !in db.open
    ensures var both := Do(Do(db, Status(a, k, x)), Status(b, k, y));
      var d := if inOrder then Do(Do(both, Log(a)), Log(b)) else Do(Do(both, Log(b)), Log(a));
      d.open[a] == [] && d.open[b] == [] && (Replay(d.events, k) == Current(d, k) <==> inOrder || x == y)
  {
    var both := Do(Do(db, Status(a, k, x)), Status(b, k, y));
    var ea, eb := Entry(k, StatusAction(x)), Entry(k, StatusAction(y));
    assert both.open[a] == [ea] && both.open[b] == [eb] && both.events == db.events;
    if inOrder {
      LogBoth(both, a, b);
      StatusesLogged(db.events, k, x, y);
    } else {
      LogBoth(both, b, a);
      StatusesLogged(db.events, k, y, x);
    }
  }

  lemma StatusesLogged(events: seq<Entry>, k: Key, x: bool, y: bool)
    requires Replay(events, k).Some?
    ensures Replay(events + [Entry(k, StatusAction(x))] + [Entry(k, StatusAction(y))], k) ==
      Some(Replay(events, k).value.(enabled := y))
  {
    ReplayNext(events, Entry(k, StatusAction(x)), k);
    ReplayNext(events + [Entry(k, StatusAction(x))], Entry(k, StatusAction(y)), k);
  }

  /** An install while a status change is still to be logged: log and row agree in the end exactly when the change was
      to enabled, which is what the install sets. */
  lemma InstallOverStatus(db: Db, req: Request, tenant: string, app: string, enabled: bool, version: Version)
    requires var k := Key(tenant, app); k in db.installs && Replay(db.events, k) == Current(db, k) && req !in db.open
    ensures var k, row := Key(tenant, app), Do(db, Status(req, Key(tenant, app), enabled));
      var d := Do(Do(row, Install(tenant, [Release(app, version)])), Log(req));
      Replay(d.events, k) == Current(d, k) <==> enabled
  {
    var k := Key(tenant, app);
    InstallsOne(Do(db, Status(req, k, enabled)), tenant, app, version);
    ReplayNext(db.events, Entry(k, Installed(version)), k);
    ReplayNext(db.events + [Entry(k, Installed(version))], Entry(k, StatusAction(enabled)), k);
  }

  lemma InstallsOne(db: Db, tenant: string, app: string, version: Version)
    ensures Do(db, Install(tenant, [Release(app, version)])) == InstallOne(db, Key(tenant, app), version)
  {
    var releases, installed := [Release(app, version)], InstallOne(db, Key(tenant, app), version);
    assert releases[1..] == [] && InstallAll(installed, tenant, releases[1..]) == installed;
  }

  /** An install while an upgrade of the installation is still to be logged: the log arrives at the row exactly when the
      install is of the version upgraded to, and the upgrade entry starts where the log stands exactly when it is of the
      version upgraded from; so one of the two is always lost. */
  lemma InstallOverUpgrade(db: Db, req: Request, tenant: string, app: string, to: Version, version: Version)
    requires var k := Key(tenant, app);
      LogFits(db.events) && CanRun(db, Upgrade(req, app, to, [k])) && k in db.installs
        && Replay(db.events, k) == Current(db, k)
    ensures var k, row := Key(tenant, app), Do(db, Upgrade(req, app, to, [Key(tenant, app)]));
      var d := Do(Do(row, Install(tenant, [Release(app, version)])), Log(req));
      && (Replay(d.events, k) == Current(d, k) <==> version == to)
      && (LogFits(d.events) <==> version == db.installs[k].version)
      && to != db.installs[k].version
  {
    var k := Key(tenant, app);
    assert k in [k] && k in Behind(db.installs, app, to);
    var row := Do(db, Upgrade(req, app, to, [k]));
    InstallsOne(row, tenant, app, version);
    var e1, e2 := Entry(k, Installed(version)), Entry(k, Upgraded(db.installs[k].version, to));
    assert row.open[req] == [e2];
    ReplayNext(db.events, e1, k);
    ReplayNext(db.events + [e1], e2, k);
    LogFitsNext(db.events, e1);
    LogFitsLast(db.events + [e1], e2);
  }

  lemma LogFitsLast(events: seq<Entry>, e: Entry)
    requires LogFits(events)
    ensures LogFits(events + [e]) <==> Fits(Replay(events, e.key), e.action)
  {
    if Fits(Replay(events, e.key), e.action) { LogFitsNext(events, e); }
    var es := events + [e];
    assert es[..|events|] == events && es[|events|] == e;
  }

  lemma TwoUpgrades(db: Db, k: Key, a: Request, b: Request, v: Version, w: Version)
    requires k in db.installs && a != b && b !in db.open
    requires CanRun(db, Upgrade(a, k.app, v, [k]))
      && CanRun(Do(db, Upgrade(a, k.app, v, [k])), Upgrade(b, k.app, w, [k]))
    ensures var both, row := Do(Do(db, Upgrade(a, k.app, v, [k])), Upgrade(b, k.app, w, [k])), db.installs[k];
      && row.version != v && v != w && both.events == db.events && Current(both, k) == Some(row.(version := w))
      && a in both.open && both.open[a] == [Entry(k, Upgraded(row.version, v))]
      && b in both.open && both.open[b] == [Entry(k, Upgraded(v, w))]
  {
    assert k in [k] && k in Behind(db.installs, k.app, v);
    assert k in Behind(Do(db, Upgrade(a, k.app, v, [k])).installs, k.app, w);
  }

  /** Two upgrades of one installation, both rows changed before either is logged: log and row agree, and every entry
      starts where the log stands, exactly when the entries are written in the order of the changes. */
  lemma OverlappingUpgrades(db: Db, k: Key, a: Request, b: Request, v: Version, w: Version, inOrder: bool)
    requires LogFits(db.events) && k in db.installs && Replay(db.events, k) == Current(db, k) && a != b && b !in db.open
    requires CanRun(db, Upgrade(a, k.app, v, [k]))
      && CanRun(Do(db, Upgrade(a, k.app, v, [k])), Upgrade(b, k.app, w, [k]))
    ensures var both := Do(Do(db, Upgrade(a, k.app, v, [k])), Upgrade(b, k.app, w, [k]));
      CanRun(both, Log(a)) && CanRun(both, Log(b)) &&
      var d := if inOrder then Do(Do(both, Log(a)), Log(b)) else Do(Do(both, Log(b)), Log(a));
      (Replay(d.events, k) == Current(d, k) <==> inOrder) && (LogFits(d.events) <==> inOrder)
  {
    TwoUpgrades(db, k, a, b, v, w);
    var both := Do(Do(db, Upgrade(a, k.app, v, [k])), Upgrade(b, k.app, w, [k]));
    if inOrder { LogBoth(both, a, b); } else { LogBoth(both, b, a); }
    UpgradesLogged(db.events, k, db.installs[k], v, w, inOrder);
  }

  lemma UpgradesLogged(events: seq<Entry>, k: Key, row: Row, v: Version, w: Version, inOrder: bool)
    requires LogFits(events) && Replay(events, k) == Some(row) && row.version != v && v != w
    ensures var ea, eb := Entry(k, Upgraded(row.version, v)), Entry(k, Upgraded(v, w));
      var es := if inOrder then events + [ea] + [eb] else events + [eb] + [ea];
      (Replay(es, k) == Some(row.(version := w)) <==> inOrder) && (LogFits(es) <==> inOrder)
  {
    var ea, eb := Entry(k, Upgraded(row.version, v)), Entry(k, Upgraded(v, w));
    var first, second := if inOrder then ea else eb, if inOrder then eb else ea;
    ReplayNext(events, first, k);
    ReplayNext(events + [first], second, k);
    LogFitsLast(events, first);
    if inOrder {
      LogFitsLast(events + [first], second);
    } else {
      MisfitStays(events + [first], second);
    }
  }

  lemma MisfitStays(events: seq<Entry>, e: Entry)
    requires !LogFits(events)
    ensures !LogFits(events + [e])
  {
    var i :| 0 <= i < |events| && !Fits(Replay(events[..i], events[i].key), events[i].action);
    var es := events + [e];
    assert es[..i] == events[..i] && es[i] == events[i];
  }

  // ---- versions after Sync ---------------------------------------------------------------------------------------

  ghost predicate AtVersion(db: Db, app: string, version: Version) {
    forall k :: k in db.installs && k.app == app ==> db.installs[k].version == version
  }

  /** The step comes from a binary with this version of the app. */
  predicate SameBinary(s: Step, app: string, version: Version) {
    match s
    case Install(_, releases) => forall r :: r in releases && r.app == app ==> r.version == version
    case Upgrade(_, a, v, _) => a == app ==> v == version
    case _ => true
  }

  lemma {:induction false} InstallAllAtVersion(db: Db, tenant: string, releases: seq<Release>, app: string,
                                               version: Version)
    requires AtVersion(db, app, version) && forall r :: r in releases && r.app == app ==> r.version == version
    ensures AtVersion(InstallAll(db, tenant, releases), app, version)
    decreases |releases|
  {
    if releases != [] {
      assert releases[0] in releases;
      var first := InstallOne(db, Key(tenant, releases[0].app), releases[0].version);
      InstallAllAtVersion(first, tenant, releases[1..], app, version);
    }
  }

  lemma {:induction false} StaysAtVersion(db: Db, steps: seq<Step>, app: string, version: Version)
    requires AtVersion(db, app, version) && Runs(db, steps) && forall s :: s in steps ==> SameBinary(s, app, version)
    ensures AtVersion(Run(db, steps), app, version)
    decreases |steps|
  {
    if steps != [] {
      assert SameBinary(steps[0], app, version);
      if steps[0].Install? { InstallAllAtVersion(db, steps[0].tenant, steps[0].releases, app, version); }
      StaysAtVersion(Do(db, steps[0]), steps[1..], app, version);
    }
  }

  /** After the upgrade statement of Sync, and as long as only binaries with this version of the app run, every
      installation of the app is at the compiled version, whether or not the entries get logged. */
  lemma SyncedVersion(db: Db, req: Request, app: string, version: Version, rows: seq<Key>, later: seq<Step>)
    requires CanRun(db, Upgrade(req, app, version, rows))
    requires Runs(Do(db, Upgrade(req, app, version, rows)), later)
    requires forall s :: s in later ==> SameBinary(s, app, version)
    ensures AtVersion(Run(Do(db, Upgrade(req, app, version, rows)), later), app, version)
  {
    StaysAtVersion(Do(db, Upgrade(req, app, version, rows)), later, app, version);
  }
}
