/** What one call for the registry index answers and writes, case by case, from the server's answers, the files, the
    clock and the trusted functions alone. */
module RegistryExact {
  import opened Common
  import opened Names
  import opened Scopes
  import opened RegistryFetch

  /** The bytes carry a signature that verifies and decode to a valid index. */
  ghost predicate Good(trust: Trust, raw: Bytes, sig: Bytes) {
    trust.verify(raw, sig) && trust.decode(raw).Some? && ValidIndex(trust.decode(raw).value)
  }

  /** The index kept in the files, if both are there and good. */
  ghost function Kept(trust: Trust, disk: Disk): Option<Index> {
    if disk.raw.Some? && disk.sig.Some? && Good(trust, disk.raw.value, disk.sig.value) then trust.decode(disk.raw.value)
    else None
  }

  /** The body and signature that two answers amount to: a full answer of at most four mebibytes and a signature no
      longer; the files again for a 304; and an empty signature for a 304 to the second question. */
  function Offer(disk: Disk, first: Reply, second: Reply): Option<(Bytes, Bytes, string)> {
    match (first, second)
    case (Ok(body, etag), Ok(sig, _)) =>
      if |body| <= 4_194_304 && |sig| <= 4_194_304 then Some((body, sig, etag)) else None
    case (Ok(body, etag), NotModified) => if |body| <= 4_194_304 then Some((body, "", etag)) else None
    case (NotModified, _) =>
      if disk.raw.None? || disk.sig.None? then None
      else Some((disk.raw.value, disk.sig.value, if disk.etag.Some? then disk.etag.value else ""))
    case _ => None
  }

  /** The files after body, signature and tag have been written. */
  function Files(raw: Bytes, sig: Bytes, etag: string): Disk {
    Disk(Some(raw), Some(sig), if etag == "" then None else Some(etag))
  }

  lemma OfferExact(disk: Disk, call: Call)
    ensures Downloaded(disk, call) ==
      match Offer(disk, call.first, call.second)
      case Some(o) => Some(Download(o.0, o.1, o.2))
      case None => None
  {
  }

  /** Nothing to go by: no keys, or no usable answer. */
  lemma WithoutOffer(trust: Trust, disk: Disk, call: Call)
    ensures trust.keys == 0 ==> Outcome(trust, disk, call) == (Answer(None, Some(NoKeys)), disk)
    ensures trust.keys > 0 && Offer(disk, call.first, call.second).None? ==>
      Outcome(trust, disk, call) ==
        (if Kept(trust, disk).Some? then Answer(Kept(trust, disk), None) else Answer(None, Some(Unreachable)), disk)
  {
    OfferExact(disk, call);
  }

  /** An offer that is not signed, does not decode to a valid index, is dated more than an hour ahead, or is older than
      what is kept: what is kept is answered beside the error, but for the date, and the files stay. */
  lemma RefusedOffer(trust: Trust, disk: Disk, call: Call)
    requires trust.keys > 0 && Offer(disk, call.first, call.second).Some?
    ensures var (raw, sig, etag) := Offer(disk, call.first, call.second).value;
      var kept, outcome := Kept(trust, disk), Outcome(trust, disk, call);
      && (!trust.verify(raw, sig) ==> outcome == (Answer(kept, Some(BadSignature)), disk))
      && (trust.verify(raw, sig) && !Good(trust, raw, sig) ==> outcome == (Answer(kept, Some(BadIndex)), disk))
      && (Good(trust, raw, sig) ==>
            var at := trust.decode(raw).value.generatedAt;
            && (at > call.now + 3_600_000_000_000 ==> outcome == (Answer(None, Some(FromFuture)), disk))
            && (at <= call.now + 3_600_000_000_000 && kept.Some? && at < kept.value.generatedAt ==>
                  outcome == (Answer(kept, Some(Replayed)), disk)))
  {
    OfferExact(disk, call);
  }

  /** An offer that is signed and valid, dated at most an hour ahead and not older than what is kept is taken: it is the
      answer, without error, and its body, signature and tag are the files, if they can be written. */
  lemma TakenOffer(trust: Trust, disk: Disk, call: Call)
    requires trust.keys > 0 && Offer(disk, call.first, call.second).Some?
    requires var (raw, sig, etag) := Offer(disk, call.first, call.second).value;
      && Good(trust, raw, sig) && trust.decode(raw).value.generatedAt <= call.now + 3_600_000_000_000
      && (Kept(trust, disk).Some? ==>
            Kept(trust, disk).value.generatedAt <= trust.decode(raw).value.generatedAt)
    ensures var (raw, sig, etag) := Offer(disk, call.first, call.second).value;
      Outcome(trust, disk, call) ==
        (Answer(trust.decode(raw), None), if call.writable then Files(raw, sig, etag) else disk)
  {
    OfferExact(disk, call);
  }

  /** So a good newer index that the server delivers in full reaches the caller and the files, whatever they held, and
      the next call that gets no answer returns it. */
  lemma NewIndexArrives(trust: Trust, disk: Disk, body: Bytes, etag: string, sig: Bytes, now: int, later: int,
                        writable: bool)
    requires trust.keys > 0 && |body| <= 4_194_304 && |sig| <= 4_194_304 && Good(trust, body, sig)
    requires trust.decode(body).value.generatedAt <= now + 3_600_000_000_000
    requires Kept(trust, disk).Some? ==> Kept(trust, disk).value.generatedAt <= trust.decode(body).value.generatedAt
    ensures var (answer, disk') := Outcome(trust, disk, Call(Ok(body, etag), Ok(sig, ""), now, true));
      && answer == Answer(trust.decode(body), None) && disk' == Files(body, sig, etag)
      && Outcome(trust, disk', Call(Failed, Failed, later, writable)) == (Answer(trust.decode(body), None), disk')
  {
    TakenOffer(trust, disk, Call(Ok(body, etag), Ok(sig, ""), now, true));
    WithoutOffer(trust, Files(body, sig, etag), Call(Failed, Failed, later, writable));
  }

  // ---- what a valid manifest is -----------------------------------------------------------------------------------

  /** Manifest.Validate, field by field. */
  lemma ManifestExact(m: Manifest)
    ensures ValidManifest(m) <==>
      && DottedText(m.id) && ShortText(m.shortId) && Version(m.version)
      && (exists i :: 0 <= i < |m.name| && !IsSpace(m.name[i])) && |m.name| <= 160
      && m.goModule != "" && |m.goModule| <= 255
      && (m.importPath == "" || m.importPath == m.goModule || m.goModule + "/" <= m.importPath)
      && |m.description| <= 1_000 && |m.publisher| <= 120
      && (forall p :: p in m.permissions ==> m.shortId + "." <= p.code)
      && (forall path :: path in m.menus ==> path == "/" + m.shortId || "/" + m.shortId + "/" <= path)
  {
    DottedExact(m.id);
    ShortExact(m.shortId);
    SemVerExact(m.version);
    forall s: string, prefix: string ensures HasPrefix(s, prefix) <==> prefix <= s {}
    if forall p :: p in m.permissions ==> m.shortId + "." <= p.code {
      forall i | 0 <= i < |m.permissions| ensures HasPrefix(m.permissions[i].code, m.shortId + ".") {
        assert m.permissions[i] in m.permissions;
      }
    }
    if forall path :: path in m.menus ==> path == "/" + m.shortId || "/" + m.shortId + "/" <= path {
      forall i | 0 <= i < |m.menus|
        ensures m.menus[i] == "/" + m.shortId || HasPrefix(m.menus[i], "/" + m.shortId + "/")
      {
        assert m.menus[i] in m.menus;
      }
    }
  }
}
