/** Fetching the signed registry index: the cache files, the download, and what every run of fetches keeps. */
module RegistryFetch {
  import opened Common
  import opened Names
  import opened Scopes

  type Bytes = string

  datatype Permission = Permission(code: string, ownScope: bool, defaultRoles: seq<string>)
  datatype Manifest = Manifest(id: string, shortId: string, name: string, version: string, goModule: string,
                               importPath: string,
                               description: string, publisher: string, permissions: seq<Permission>, menus: seq<string>)

  /** The index; generatedAt counts nanoseconds. */
  datatype Index = Index(generatedAt: int, apps: seq<Manifest>)

  const HOUR := 3_600_000_000_000
  const MAX_INDEX_BYTES := 4_194_304

  // ---- validation ---------------------------------------------------------------------------------------------

  /** strings.TrimSpace leaves nothing. */
  predicate Blank(s: string) {
    forall i :: 0 <= i < |s| ==> IsSpace(s[i])
  }

  /** Manifest.Validate; the menus are given by their paths. */
  predicate ValidManifest(m: Manifest) {
    && Dotted(m.id) && ShortId(m.shortId) && !Blank(m.name) && |m.name| <= 160 && SemVer(m.version)
    && 0 < |m.goModule| <= 255
    && (m.importPath == "" || m.importPath == m.goModule || HasPrefix(m.importPath, m.goModule + "/"))
    && |m.description| <= 1000 && |m.publisher| <= 120
    && (forall i :: 0 <= i < |m.permissions| ==> HasPrefix(m.permissions[i].code, m.shortId + "."))
    && (forall i :: 0 <= i < |m.menus| ==>
      m.menus[i] == "/" + m.shortId || HasPrefix(m.menus[i], "/" + m.shortId + "/"))
  }

  /** The manifest at this place is valid and shares no id and no short id with an earlier one. */
  predicate ValidAt(apps: seq<Manifest>, i: nat)
    requires i < |apps|
  {
    ValidManifest(apps[i])
    && forall j :: 0 <= j < i ==> apps[j].id != apps[i].id && apps[j].shortId != apps[i].shortId
  }

  ghost predicate ValidIndex(ix: Index) {
    forall i :: 0 <= i < |ix.apps| ==> ValidAt(ix.apps, i)
  }

  /** Index.Validate, with its two sets of names already seen. */
  method Validate(ix: Index) returns (ok: bool)
    ensures ok <==> ValidIndex(ix)
  {
    var ids, shorts := {}, {};
    for i := 0 to |ix.apps|
      invariant ids == set k | 0 <= k < i :: ix.apps[k].id
      invariant shorts == set k | 0 <= k < i :: ix.apps[k].shortId
      invariant forall k :: 0 <= k < i ==> ValidAt(ix.apps, k)
    {
      var m := ix.apps[i];
      ok := ValidManifest(m) && m.id !in ids && m.shortId !in shorts;
      assert ok <==> ValidAt(ix.apps, i);
      if !ok { return; }
      ids, shorts := ids + {m.id}, shorts + {m.shortId};
    }
    ok := true;
  }

  /** In a valid index no two apps declare the same permission code. */
  lemma CodesSeparate(ix: Index, i: nat, j: nat, p: nat, q: nat)
    requires ValidIndex(ix) && i < |ix.apps| && j < |ix.apps|
    requires p < |ix.apps[i].permissions| && q < |ix.apps[j].permissions|
    requires ix.apps[i].permissions[p].code == ix.apps[j].permissions[q].code
    ensures i == j
  {
    var a, b := ix.apps[i], ix.apps[j];
    assert ValidAt(ix.apps, i) && ValidAt(ix.apps, j);
    PrefixSeparates(a.shortId, b.shortId, a.permissions[p].code);
  }

  // ---- signature and decoding, as given -----------------------------------------------------------------------

  /** Verification under the configured keys, and JSON decoding. */
  datatype Trust = Trust(keys: nat, verify: (Bytes, Bytes) -> bool, decode: Bytes -> Option<Index>)

  /** Parse after a successful signature check. */
  ghost function Trusted(trust: Trust, raw: Bytes, sig: Bytes): Option<Index> {
    if trust.verify(raw, sig) && trust.decode(raw).Some? && ValidIndex(trust.decode(raw).value) then trust.decode(raw)
    else None
  }

  // ---- files, answers, outcomes ---------------------------------------------------------------------------------

  /** The three cache files. */
  datatype Disk = Disk(raw: Option<Bytes>, sig: Option<Bytes>, etag: Option<string>)

  /** What one GET gives: a failure to get an answer, a status other than 200 and 304, 304, or 200. */
  datatype Reply = Failed | Status | NotModified | Ok(body: Bytes, etag: string)

  datatype Error = NoKeys | Unreachable | BadSignature | BadIndex | FromFuture | Replayed

  datatype Answer = Answer(index: Option<Index>, error: Option<Error>)

  datatype Download = Download(raw: Bytes, sig: Bytes, etag: string)

  /** One call: the two GETs it makes, the clock, and whether the directory can be written. */
  datatype Call = Call(first: Reply, second: Reply, now: int, writable: bool)

  function ReadCache(disk: Disk): Option<(Bytes, Bytes)> {
    if disk.raw.Some? && disk.sig.Some? then Some((disk.raw.value, disk.sig.value)) else None
  }

  function ETagOf(disk: Disk): string {
    if disk.etag.Some? then disk.etag.value else ""
  }

  /** The cached index, if its signature and contents still check. */
  ghost function Cached(trust: Trust, disk: Disk): Option<Index> {
    var c := ReadCache(disk);
    if c.Some? then Trusted(trust, c.value.0, c.value.1) else None
  }

  predicate Arrived(r: Reply) {
    r.NotModified? || (r.Ok? && |r.body| <= MAX_INDEX_BYTES)
  }

  /** download: on 304 the cached files again, otherwise the body with the tag it came with and a separate signature. */
  function Downloaded(disk: Disk, call: Call): Option<Download> {
    if !Arrived(call.first) then None
    else if call.first.NotModified? then
      var c := ReadCache(disk);
      if c.Some? then Some(Download(c.value.0, c.value.1, ETagOf(disk))) else None
    else if !Arrived(call.second) then None
    else Some(Download(call.first.body, if call.second.Ok? then call.second.body else "", call.first.etag))
  }

  function Written(disk: Disk, d: Download, writable: bool): Disk {
    if writable then Disk(Some(d.raw), Some(d.sig), if d.etag == "" then None else Some(d.etag)) else disk
  }

  ghost function Outcome(trust: Trust, disk: Disk, call: Call): (Answer, Disk) {
    if trust.keys == 0 then (Answer(None, Some(NoKeys)), disk)
    else
      var cached := Cached(trust, disk);
      var d := Downloaded(disk, call);
      if d.None? then (if cached.Some? then Answer(cached, None) else Answer(None, Some(Unreachable)), disk)
      else if !trust.verify(d.value.raw, d.value.sig) then (Answer(cached, Some(BadSignature)), disk)
      else
        var ix := Trusted(trust, d.value.raw, d.value.sig);
        if ix.None? then (Answer(cached, Some(BadIndex)), disk)
        else if ix.value.generatedAt > call.now + HOUR then (Answer(None, Some(FromFuture)), disk)
        else if cached.Some? && ix.value.generatedAt < cached.value.generatedAt
        then (Answer(cached, Some(Replayed)), disk)
        else (Answer(ix, None), Written(disk, d.value, call.writable))
  }

  /** The cache directory; when no directory is configured nothing is read and nothing is written. */
  class CacheDir {
    const configured: bool
    var raw: Option<Bytes>
    var sig: Option<Bytes>
    var etag: Option<string>

    constructor (configured: bool)
      ensures Valid() && this.configured == configured
    {
      this.configured := configured;
      raw, sig, etag := None, None, None;
    }

    predicate Valid()
      reads this
    {
      !configured ==> View() == Disk(None, None, None)
    }

    function View(): Disk
      reads this
    {
      Disk(raw, sig, etag)
    }

    /** writeCache. */
    method WriteCache(d: Download, writable: bool)
      requires Valid()
      modifies this
      ensures Valid()
      ensures View() == Written(old(View()), d, writable && configured)
    {
      if !configured || !writable { return; }
      raw := Some(d.raw);
      sig := Some(d.sig);
      etag := if d.etag == "" then None else Some(d.etag);
    }

    /** Parse: decoding and validation. */
    method Parse(trust: Trust, bytes: Bytes) returns (ix: Option<Index>)
      ensures ix == var d := trust.decode(bytes); if d.Some? && ValidIndex(d.value) then d else None
    {
      ix := trust.decode(bytes);
      if ix.None? { return; }
      var ok := Validate(ix.value);
      if !ok { ix := None; }
    }

    /** Fetch. */
    method Fetch(trust: Trust, call: Call) returns (answer: Answer)
      requires Valid()
      modifies this
      ensures Valid()
      ensures (answer, View()) == Outcome(trust, old(View()), call.(writable := call.writable && configured))
    {
      if trust.keys == 0 { return Answer(None, Some(NoKeys)); }
      var cached := None;
      var c := ReadCache(View());
      if c.Some? && trust.verify(c.value.0, c.value.1) { cached := Parse(trust, c.value.0); }
      var d := Downloaded(View(), call);
      if d.None? {
        if cached.Some? { return Answer(cached, None); }
        return Answer(None, Some(Unreachable));
      }
      if !trust.verify(d.value.raw, d.value.sig) { return Answer(cached, Some(BadSignature)); }
      var ix := Parse(trust, d.value.raw);
      if ix.None? { return Answer(cached, Some(BadIndex)); }
      if ix.value.generatedAt > call.now + HOUR { return Answer(None, Some(FromFuture)); }
      if cached.Some? && ix.value.generatedAt < cached.value.generatedAt { return Answer(cached, Some(Replayed)); }
      WriteCache(d.value, call.writable);
      answer := Answer(ix, None);
    }
  }

  // ---- runs -------------------------------------------------------------------------------------------------------

  ghost function Run(trust: Trust, disk: Disk, calls: seq<Call>): Disk
    decreases |calls|
  {
    if calls == [] then disk else Run(trust, Outcome(trust, disk, calls[0]).1, calls[1..])
  }

  ghost predicate SignedAndValid(trust: Trust, ix: Index) {
    ValidIndex(ix) && exists raw, sig :: trust.verify(raw, sig) && trust.decode(raw) == Some(ix)
  }

  /** The second index is there and not older than the first, if there is a first. */
  predicate NotOlder(a: Option<Index>, b: Option<Index>) {
    a.Some? ==> b.Some? && b.value.generatedAt >= a.value.generatedAt
  }

  /** Whatever the server answers, an index that is returned, even beside an error, is signed and valid and not older
      than the cached one; and the cache never goes back. */
  lemma FetchSafe(trust: Trust, disk: Disk, call: Call)
    ensures var (answer, disk') := Outcome(trust, disk, call);
      && (answer.index.Some? ==> SignedAndValid(trust, answer.index.value))
      && (answer.index.Some? ==> NotOlder(Cached(trust, disk), answer.index))
      && NotOlder(Cached(trust, disk), Cached(trust, disk'))
  {
    var answer := Outcome(trust, disk, call).0;
    if answer.index.Some? {
      var c, d := ReadCache(disk), Downloaded(disk, call);
      if answer.index == Cached(trust, disk) {
        assert trust.verify(c.value.0, c.value.1) && trust.decode(c.value.0) == Some(answer.index.value);
      } else {
        assert trust.verify(d.value.raw, d.value.sig) && trust.decode(d.value.raw) == Some(answer.index.value);
      }
    }
  }

  /** What the server offers is signed and good, and dated more than an hour ahead. */
  ghost predicate OffersFuture(trust: Trust, d: Option<Download>, now: int) {
    d.Some? && Trusted(trust, d.value.raw, d.value.sig).Some?
    && Trusted(trust, d.value.raw, d.value.sig).value.generatedAt > now + HOUR
  }

  /** With a key and a good cached index, a call comes back empty-handed exactly when the server offers a good index
      dated more than an hour ahead; and whatever is reported as an error leaves the files alone. */
  lemma FetchFallsBack(trust: Trust, disk: Disk, call: Call)
    requires trust.keys > 0 && Cached(trust, disk).Some?
    ensures var (answer, disk') := Outcome(trust, disk, call);
      && (answer.index.None? <==> OffersFuture(trust, Downloaded(disk, call), call.now))
      && (answer.index.None? <==> answer.error == Some(FromFuture))
      && (answer.error.Some? ==> disk' == disk)
      && (answer.index.Some? && answer.index != Cached(trust, disk) ==>
        answer.index.value.generatedAt <= call.now + HOUR)
      && (call.first.Failed? ==> answer == Answer(Cached(trust, disk), None))
  {
  }

  lemma {:induction false} CacheNeverGoesBack(trust: Trust, disk: Disk, calls: seq<Call>)
    ensures NotOlder(Cached(trust, disk), Cached(trust, Run(trust, disk, calls)))
    decreases |calls|
  {
    if calls != [] {
      FetchSafe(trust, disk, calls[0]);
      CacheNeverGoesBack(trust, Outcome(trust, disk, calls[0]).1, calls[1..]);
    }
  }

  /** No rollback over a run: an index returned by a call whose writes succeed is not newer than one returned by any
      later call of the run. */
  lemma NoRollback(trust: Trust, disk: Disk, call: Call, between: seq<Call>, last: Call)
    requires call.writable && Outcome(trust, disk, call).0.index.Some?
    ensures var d1 := Outcome(trust, disk, call).1;
      var later := Outcome(trust, Run(trust, d1, between), last).0;
      later.index.Some? ==> later.index.value.generatedAt >= Outcome(trust, disk, call).0.index.value.generatedAt
  {
    var d1 := Outcome(trust, disk, call).1;
    assert Cached(trust, d1) == Outcome(trust, disk, call).0.index;
    CacheNeverGoesBack(trust, d1, between);
    FetchSafe(trust, Run(trust, d1, between), last);
  }

  // ---- the tag ------------------------------------------------------------------------------------------------------

  /** The 200 answers of a run, as pairs of tag and body. */
  function Delivered(calls: seq<Call>): set<(string, Bytes)> {
    set c | c in calls && c.first.Ok? :: (c.first.etag, c.first.body)
  }

  /** A stored tag came with the stored bytes. */
  predicate TagFits(disk: Disk, delivered: set<(string, Bytes)>) {
    disk.etag.Some? ==> disk.raw.Some? && disk.sig.Some? && (disk.etag.value, disk.raw.value) in delivered
  }

  lemma {:induction false} TagAlwaysFits(trust: Trust, disk: Disk, calls: seq<Call>, delivered: set<(string, Bytes)>)
    requires TagFits(disk, delivered)
    ensures TagFits(Run(trust, disk, calls), delivered + Delivered(calls))
    decreases |calls|
  {
    if calls != [] {
      var disk' := Outcome(trust, disk, calls[0]).1;
      var more := delivered + Delivered([calls[0]]);
      assert calls == [calls[0]] + calls[1..];
      if calls[0].first.Ok? { assert calls[0] in [calls[0]]; }
      assert TagFits(disk', more);
      TagAlwaysFits(trust, disk', calls[1..], more);
      assert more + Delivered(calls[1..]) == delivered + Delivered(calls);
    }
  }

  /** Starting from an empty directory, after any run: if the server's tags name its representations, a 304 to the
      stored tag leads to the same answer and leaves the same bytes and tag as downloading the representation it
      stands for, with any signature of it that verifies. */
  lemma NotModifiedIsFull(trust: Trust, calls: seq<Call>, body: Bytes, sig: Bytes, now: int, writable: bool)
    requires var disk := Run(trust, Disk(None, None, None), calls);
      && disk.etag.Some? && disk.etag != Some("") && (disk.etag.value, body) in Delivered(calls)
      && (forall a, b ::
            (disk.etag.value, a) in Delivered(calls) && (disk.etag.value, b) in Delivered(calls) ==> a == b)
      && Cached(trust, disk).Some? && trust.verify(body, sig) && |body| <= MAX_INDEX_BYTES && |sig| <= MAX_INDEX_BYTES
    ensures var disk := Run(trust, Disk(None, None, None), calls);
      var (short, d1) := Outcome(trust, disk, Call(NotModified, Failed, now, writable));
      var (full, d2) := Outcome(trust, disk, Call(Ok(body, disk.etag.value), Ok(sig, ""), now, writable));
      short == full && d1.raw == d2.raw && d1.etag == d2.etag
  {
    TagAlwaysFits(trust, Disk(None, None, None), calls, {});
    var disk := Run(trust, Disk(None, None, None), calls);
    assert {} + Delivered(calls) == Delivered(calls);
    assert disk.raw == Some(body);
  }
}
