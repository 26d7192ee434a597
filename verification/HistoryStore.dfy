/** The tables of installations and the writers of the app store, each a run of History steps. */
module HistoryStore {
  import opened Common
  import opened History

  /** No installation of the app has an upgrade entry still to be written. */
  ghost predicate NoneOpen(db: Db, app: string) {
    forall k: Key :: k.app == app ==> !KindOpen(db, k, true)
  }

  /** The upgrade of an app with the first n of its entries written. */
  function Synced(db: Db, req: Request, app: string, version: Version, rows: seq<Key>, n: nat): Db
    requires n <= |rows| && forall k :: k in rows ==> k in db.installs
  {
    var entries := UpgradeEntries(db.installs, version, rows);
    Db(Raised(db.installs, app, version), db.events + entries[..n], db.open[req := entries[n..]])
  }

  lemma SyncedNext(db: Db, req: Request, app: string, version: Version, rows: seq<Key>, n: nat)
    requires n < |rows| && forall k :: k in rows ==> k in db.installs
    ensures var d := Synced(db, req, app, version, rows, n);
      && CanRun(d, Log(req)) && Do(d, Log(req)) == Synced(db, req, app, version, rows, n + 1)
      && d.open[req][0] == Entry(rows[n], Upgraded(db.installs[rows[n]].version, version))
  {
    var entries := UpgradeEntries(db.installs, version, rows);
    assert entries[n..][1..] == entries[n + 1..] && entries[..n + 1] == entries[..n] + [entries[n]];
  }

  /** Every installation of the app is at the version, whether enabled or not; all else is as it was. */
  ghost predicate SyncedRows(was: map<Key, Row>, now: map<Key, Row>, app: string, version: Version) {
    && now.Keys == was.Keys
    && forall k :: k in was ==> now[k] == if k.app == app then Row(version, was[k].enabled) else was[k]
  }

  /** One upgrade entry for each installation of the app that was at another version, and nothing else. */
  ghost predicate SyncedLog(was: map<Key, Row>, before: seq<Entry>, after: seq<Entry>, app: string, version: Version,
                            rows: seq<Key>)
  {
    && (forall k :: k in rows <==> k in was && k.app == app && was[k].version != version)
    && Distinct(rows) && |after| == |before| + |rows| && after[..|before|] == before
    && forall i :: 0 <= i < |rows| ==> after[|before| + i] == Entry(rows[i], Upgraded(was[rows[i]].version, version))
  }

  lemma SyncedExact(db: Db, req: Request, app: string, version: Version, rows: seq<Key>)
    requires CanRun(db, Upgrade(req, app, version, rows))
    ensures SyncedRows(db.installs, Raised(db.installs, app, version), app, version)
    ensures var entries := UpgradeEntries(db.installs, version, rows);
      SyncedLog(db.installs, db.events, db.events + entries, app, version, rows)
  {
  }

  class Tables {
    var installs: map<Key, Row>
    var events: seq<Entry>
    ghost var open: map<Request, seq<Entry>>

    constructor ()
      ensures View() == EMPTY
    {
      installs, events, open := map[], [], map[];
    }

    ghost function View(): Db
      reads this
    {
      Db(installs, events, open)
    }

    /** The upsert and the log entry of Install for one module; Install runs them in one transaction. */
    method InstallModule(tenant: string, app: string, version: Version)
      modifies this
      ensures View() == InstallOne(old(View()), Key(tenant, app), version)
    {
      installs := installs[Key(tenant, app) := Row(version, true)];
      events := events + [Entry(Key(tenant, app), Installed(version))];
    }

    /** SetStatus: the row first, then the log; steps of others may run in between, and logged says whether this
        request gets that far. */
    method ChangeStatus(ghost req: Request, key: Key, enabled: bool) returns (found: bool)
      requires req !in open
      modifies this
      ensures found <==> key in old(installs)
      ensures View() == Do(old(View()), Status(req, key, enabled))
    {
      found := key in installs;
      if found {
        installs := installs[key := installs[key].(enabled := enabled)];
        open := open[req := [Entry(key, StatusAction(enabled))]];
      }
    }

    /** Writing the next entry of a request; what is written is what the request still owes. */
    method WriteEntry(ghost req: Request, entry: Entry)
      requires CanRun(View(), Log(req)) && entry == open[req][0]
      modifies this
      ensures View() == Do(old(View()), Log(req))
    {
      events := events + [entry];
      open := open[req := open[req][1..]];
    }

    /** SetStatus of a request that is left alone. */
    method SetStatus(ghost req: Request, key: Key, enabled: bool) returns (found: bool)
      requires req !in open
      modifies this
      ensures found <==> key in old(installs)
      ensures View() == if found then Do(Do(old(View()), Status(req, key, enabled)), Log(req)) else old(View())
      ensures !found ==> installs == old(installs) && events == old(events)
      ensures found ==> installs == old(installs)[key := Row(old(installs)[key].version, enabled)]
      ensures found ==> events == old(events) + [Entry(key, if enabled then Enabled else Disabled)]
      ensures Agrees(old(View())) && !KindOpen(old(View()), key, false) ==> Agrees(View())
    {
      ghost var agreed := Agrees(View()) && !KindOpen(View(), key, false);
      if agreed { StatusAgrees(View(), req, key, enabled); }
      found := ChangeStatus(req, key, enabled);
      if !found { return; }
      if agreed { LogAgrees(View(), req); }
      WriteEntry(req, Entry(key, StatusAction(enabled)));
    }

    /** The upgrade statement of Sync: it returns the rows it changed, with their old versions, in any order. */
    method RaiseVersions(ghost req: Request, app: string, version: Version) returns (ups: seq<(Key, Version)>)
      requires req !in open
      modifies this
      ensures forall i :: 0 <= i < |ups| ==> ups[i].0 in old(installs) && ups[i].1 == old(installs)[ups[i].0].version
      ensures CanRun(old(View()), Upgrade(req, app, version, KeysOf(ups)))
      ensures View() == Do(old(View()), Upgrade(req, app, version, KeysOf(ups)))
    {
      ups := [];
      var todo := Behind(installs, app, version);
      while todo != {}
        invariant View() == old(View()) && todo <= Behind(installs, app, version)
        invariant forall i :: 0 <= i < |ups| ==> ups[i].0 in installs && ups[i].1 == installs[ups[i].0].version
        invariant Distinct(KeysOf(ups))
        invariant forall k :: k in KeysOf(ups) <==> k in Behind(installs, app, version) - todo
      {
        var k :| k in todo;
        ghost var before := KeysOf(ups);
        ups := ups + [(k, installs[k].version)];
        assert KeysOf(ups) == before + [k] && k !in before;
        DistinctSnoc(before, k);
        todo := todo - {k};
      }
      ghost var rows := KeysOf(ups);
      open := open[req := UpgradeEntries(installs, version, rows)];
      installs := Raised(installs, app, version);
    }

    /** The upgrade part of Sync for one compiled module: the statement, then one log entry for each changed row. */
    method SyncModule(ghost req: Request, app: string, version: Version) returns (ghost rows: seq<Key>)
      requires req !in open
      modifies this
      ensures CanRun(old(View()), Upgrade(req, app, version, rows))
      ensures installs == Raised(old(installs), app, version)
      ensures events == old(events) + UpgradeEntries(old(installs), version, rows)
      ensures open == old(open)[req := []]
      ensures SyncedRows(old(installs), installs, app, version)
      ensures SyncedLog(old(installs), old(events), events, app, version, rows)
      ensures Agrees(old(View())) && NoneOpen(old(View()), app) ==> Agrees(View())
    {
      ghost var agreed := Agrees(View()) && NoneOpen(View(), app);
      var ups := RaiseVersions(req, app, version);
      rows := KeysOf(ups);
      if agreed { UpgradeAgrees(old(View()), req, app, version, rows); }
      assert View() == Synced(old(View()), req, app, version, rows, 0);
      for i := 0 to |ups|
        invariant View() == Synced(old(View()), req, app, version, rows, i)
        invariant agreed ==> Agrees(View())
      {
        SyncedNext(old(View()), req, app, version, rows, i);
        if agreed { LogAgrees(View(), req); }
        WriteEntry(req, Entry(ups[i].0, Upgraded(ups[i].1, version)));
      }
      SyncedExact(old(View()), req, app, version, rows);
    }
  }

  function KeysOf(ups: seq<(Key, Version)>): (ks: seq<Key>)
    ensures |ks| == |ups| && forall i :: 0 <= i < |ups| ==> ks[i] == ups[i].0
  {
    seq(|ups|, i requires 0 <= i < |ups| => ups[i].0)
  }
}
