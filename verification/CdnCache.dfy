/**
 * The two-tier CDN cache (proxy/captcha-cdn-cache.ts) refines a map.
 *
 * Concrete side: memory, a disk whose writes, reads and unlinks may fail, tombstones for
 * refused unlinks, and single-flight loads held by generation tokens.  Abstract side: a
 * map from URL to the last published, not since invalidated entry; reading it may miss,
 * but a hit is exactly the stored entry and younger than the TTL.
 */
module CdnCache {
  import opened Util

  type Url = string
  type Body = seq<bv8>

  const MAX_SAFE_INTEGER: int := 9_007_199_254_740_991

  /** SHA-256, kept abstract as an injective constructor. */
  datatype Digest = Sha256(of: Body)

  datatype Source = Network | Memory | Disk

  datatype Entry = Entry(body: Body, fetchedAt: int, sha256: Digest, source: Source)

  /** The JSON header line of a cache file; `None` stands for anything unreadable. */
  datatype Header = Header(version: int, fetchedAt: int, length: int, sha256: Digest)
  datatype File = File(header: Option<Header>, body: Body)

  datatype Cache = Cache(
    ttlMs: nat,
    now: int,
    memory: map<Url, Entry>,
    pending: map<Url, nat>,
    generations: map<Url, nat>,
    blockedDisk: set<Url>,
    disk: map<Url, File>,
    nextToken: nat)

  datatype Event =
    | Tick(ms: nat)
    | Get(url: Url, readable: bool)
    | Invalidate(url: Url, unlinkRefused: bool)
    | Put(url: Url, body: Body, fetchedAt: int, writable: bool)
    | LoadStart(url: Url, readable: bool)
    | LoadDone(url: Url, token: nat, body: Body, writable: bool)
    | LoadFinally(url: Url, token: nat)

  datatype Response = Nothing | Hit(entry: Entry) | Miss | Joined(token: nat) | Started(token: nat) | Delivered(entry: Entry)

  // ---------------------------------------------------------------------------
  // Concrete operations
  // ---------------------------------------------------------------------------

  predicate Fresh(ttlMs: nat, now: int, fetchedAt: int) {
    ttlMs > 0 && 0 <= fetchedAt <= MAX_SAFE_INTEGER && 0 <= now - fetchedAt < ttlMs
  }

  /** The file passes every check of `get` except its age. */
  predicate WellFormed(f: File) {
    && f.header.Some?
    && f.header.value.version == 1
    && 0 <= f.header.value.fetchedAt <= MAX_SAFE_INTEGER
    && f.body != []
    && f.header.value.length == |f.body|
    && f.header.value.sha256 == Sha256(f.body)
  }

  function FromFile(f: File): Entry
    requires WellFormed(f)
  {
    Entry(f.body, f.header.value.fetchedAt, f.header.value.sha256, Disk)
  }

  function ToFile(e: Entry): File {
    File(Some(Header(1, e.fetchedAt, |e.body|, e.sha256)), e.body)
  }

  function Lookup(c: Cache, url: Url, readable: bool): (Cache, Option<Entry>) {
    if c.ttlMs == 0 then (c, None)
    else if url in c.memory && Fresh(c.ttlMs, c.now, c.memory[url].fetchedAt) then
      (c, Some(c.memory[url].(source := Memory)))
    else
      var d := c.(memory := c.memory - {url});
      if url in d.blockedDisk || !readable || url !in d.disk || !WellFormed(d.disk[url])
         || !Fresh(d.ttlMs, d.now, d.disk[url].header.value.fetchedAt) then (d, None)
      else
        var entry := FromFile(d.disk[url]);
        (d.(memory := d.memory[url := entry]), Some(entry))
  }

  predicate Publishable(ttlMs: nat, now: int, e: Entry) {
    e.body != [] && Fresh(ttlMs, now, e.fetchedAt)
  }

  function Commit(c: Cache, url: Url, e: Entry, writable: bool): Cache {
    if !Publishable(c.ttlMs, c.now, e) then c
    else
      var d := c.(memory := c.memory[url := e]);
      if !writable then d
      else d.(disk := d.disk[url := ToFile(e)], blockedDisk := d.blockedDisk - {url})
  }

  /** Forget any load in progress for `url`: its completion no longer publishes. */
  function Revoke(c: Cache, url: Url): Cache {
    c.(generations := c.generations - {url}, pending := c.pending - {url})
  }

  function Drop(c: Cache, url: Url, unlinkRefused: bool): Cache {
    var d := Revoke(c, url).(memory := c.memory - {url});
    if unlinkRefused then d.(blockedDisk := d.blockedDisk + {url})
    else d.(disk := d.disk - {url}, blockedDisk := d.blockedDisk - {url})
  }

  predicate Live(c: Cache, url: Url, token: nat) {
    url in c.generations && c.generations[url] == token
  }

  function NewEntry(body: Body, fetchedAt: int): Entry {
    Entry(body, fetchedAt, Sha256(body), Network)
  }

  function BeginLoad(c: Cache, url: Url, readable: bool): (Cache, Response) {
    var (d, hit) := Lookup(c, url, readable);
    if hit.Some? then (d, Hit(hit.value))
    else if url in d.pending then (d, Joined(d.pending[url]))
    else
      (d.(generations := d.generations[url := d.nextToken], pending := d.pending[url := d.nextToken],
          nextToken := d.nextToken + 1), Started(d.nextToken))
  }

  function Step(c: Cache, e: Event): (Cache, Response) {
    match e
    case Tick(ms) => (c.(now := c.now + ms), Nothing)
    case Get(url, readable) =>
      var (d, hit) := Lookup(c, url, readable);
      (d, if hit.Some? then Hit(hit.value) else Miss)
    case Invalidate(url, unlinkRefused) => (Drop(c, url, unlinkRefused), Nothing)
    case Put(url, body, fetchedAt, writable) =>
      var entry := NewEntry(body, fetchedAt);
      (Commit(Revoke(c, url), url, entry, writable), Delivered(entry))
    case LoadStart(url, readable) => BeginLoad(c, url, readable)
    case LoadDone(url, token, body, writable) =>
      var entry := NewEntry(body, c.now);
      (if Live(c, url, token) then Commit(c, url, entry, writable) else c, Delivered(entry))
    case LoadFinally(url, token) => (if Live(c, url, token) then Revoke(c, url) else c, Nothing)
  }

  function Run(c: Cache, events: seq<Event>): Cache {
    if events == [] then c
    else Step(Run(c, events[..|events| - 1]), events[|events| - 1]).0
  }

  function Init(ttlMs: nat, now: int, disk: map<Url, File>): Cache {
    Cache(ttlMs, now, map[], map[], map[], {}, disk, 0)
  }

  // ---------------------------------------------------------------------------
  // The abstract map
  // ---------------------------------------------------------------------------

  /** `entries`: last published and not invalidated.  `live`: loads that may still publish. */
  datatype Spec = Spec(ttlMs: nat, now: int, entries: map<Url, Entry>, live: map<Url, nat>, nextToken: nat)

  /** Same bytes, same fetch time, same digest; where it was found does not matter. */
  predicate Same(a: Entry, b: Entry) {
    a.body == b.body && a.fetchedAt == b.fetchedAt && a.sha256 == b.sha256
  }

  predicate SpecHit(a: Spec, url: Url, e: Entry) {
    url in a.entries && Same(e, a.entries[url]) && Fresh(a.ttlMs, a.now, e.fetchedAt)
  }

  function SpecPublish(a: Spec, url: Url, e: Entry): Spec {
    if Publishable(a.ttlMs, a.now, e) then a.(entries := a.entries[url := e]) else a
  }

  /** What each operation may answer, and what it does to the map. */
  predicate SpecStep(a: Spec, e: Event, r: Response, b: Spec) {
    match e
    case Tick(ms) => r == Nothing && b == a.(now := a.now + ms)
    case Get(url, _) => b == a && (r == Miss || (r.Hit? && SpecHit(a, url, r.entry)))
    case Invalidate(url, _) => r == Nothing && b == a.(entries := a.entries - {url}, live := a.live - {url})
    case Put(url, body, fetchedAt, _) =>
      && r == Delivered(NewEntry(body, fetchedAt))
      && b == SpecPublish(a.(live := a.live - {url}), url, NewEntry(body, fetchedAt))
    case LoadStart(url, _) =>
      || (r.Hit? && SpecHit(a, url, r.entry) && b == a)
      || (url in a.live && r == Joined(a.live[url]) && b == a)
      || (url !in a.live && r == Started(a.nextToken)
          && b == a.(live := a.live[url := a.nextToken], nextToken := a.nextToken + 1))
    case LoadDone(url, token, body, _) =>
      && r == Delivered(NewEntry(body, a.now))
      && b == if url in a.live && a.live[url] == token then SpecPublish(a, url, NewEntry(body, a.now)) else a
    case LoadFinally(url, token) =>
      && r == Nothing
      && b == if url in a.live && a.live[url] == token then a.(live := a.live - {url}) else a
  }

  // ---------------------------------------------------------------------------
  // The refinement relation
  // ---------------------------------------------------------------------------

  /** The file of `url` is well formed and no tombstone hides it. */
  predicate Visible(c: Cache, url: Url) {
    url in c.disk && url !in c.blockedDisk && WellFormed(c.disk[url])
  }

  /** A visible file is the published entry, or an older one that can never be served again. */
  predicate DiskAgrees(c: Cache, a: Spec, url: Url)
    requires Visible(c, url)
  {
    && url in a.entries
    && var f := FromFile(c.disk[url]);
       || Same(f, a.entries[url])
       || (&& f.fetchedAt <= a.entries[url].fetchedAt
           && (url in c.memory || c.now - a.entries[url].fetchedAt >= c.ttlMs))
  }

  ghost predicate Refines(c: Cache, a: Spec) {
    && a.ttlMs == c.ttlMs && a.now == c.now && a.nextToken == c.nextToken
    && a.live == c.generations == c.pending
    && (forall url :: url in c.memory ==> url in a.entries && Same(c.memory[url], a.entries[url])
                                          && 0 <= c.memory[url].fetchedAt <= MAX_SAFE_INTEGER
                                          && c.memory[url].fetchedAt <= c.now)
    && (forall url :: Visible(c, url) ==> DiskAgrees(c, a, url))
  }

  /** The abstract map an earlier process left on disk. */
  function InitSpec(ttlMs: nat, now: int, disk: map<Url, File>): Spec {
    Spec(ttlMs, now, map url | url in disk && WellFormed(disk[url]) :: FromFile(disk[url]), map[], 0)
  }

  lemma InitRefines(ttlMs: nat, now: int, disk: map<Url, File>)
    ensures Refines(Init(ttlMs, now, disk), InitSpec(ttlMs, now, disk))
  {
  }

  /** A publication whose disk write fails must not be older than the file it leaves behind. */
  predicate Harmless(c: Cache, e: Event) {
    match e
    case Put(url, body, fetchedAt, writable) => HarmlessCommit(c, url, NewEntry(body, fetchedAt), writable)
    case LoadDone(url, token, body, writable) =>
      Live(c, url, token) ==> HarmlessCommit(c, url, NewEntry(body, c.now), writable)
    case _ => true
  }

  predicate HarmlessCommit(c: Cache, url: Url, e: Entry, writable: bool) {
    || !Publishable(c.ttlMs, c.now, e)
    || writable
    || !Visible(c, url)
    || c.disk[url].header.value.fetchedAt <= e.fetchedAt
  }

  /** The abstract successor that matches a concrete step. */
  function SpecAfter(a: Spec, e: Event, r: Response): Spec {
    match e
    case Tick(ms) => a.(now := a.now + ms)
    case Get(_, _) => a
    case Invalidate(url, _) => a.(entries := a.entries - {url}, live := a.live - {url})
    case Put(url, body, fetchedAt, _) => SpecPublish(a.(live := a.live - {url}), url, NewEntry(body, fetchedAt))
    case LoadStart(url, _) =>
      if r.Started? then a.(live := a.live[url := a.nextToken], nextToken := a.nextToken + 1) else a
    case LoadDone(url, token, body, _) =>
      if url in a.live && a.live[url] == token then SpecPublish(a, url, NewEntry(body, a.now)) else a
    case LoadFinally(url, token) =>
      if url in a.live && a.live[url] == token then a.(live := a.live - {url}) else a
  }

  lemma LookupRefines(c: Cache, a: Spec, url: Url, readable: bool)
    requires Refines(c, a)
    ensures Refines(Lookup(c, url, readable).0, a)
    ensures var hit := Lookup(c, url, readable).1;
            hit.Some? ==> SpecHit(a, url, hit.value)
    ensures Lookup(c, url, readable).0.pending == c.pending
  {
    var d := c.(memory := c.memory - {url});
    if c.ttlMs != 0 && !(url in c.memory && Fresh(c.ttlMs, c.now, c.memory[url].fetchedAt)) {
      forall u | Visible(d, u) ensures DiskAgrees(d, a, u) {
        assert Visible(c, u) && DiskAgrees(c, a, u);
      }
      assert Refines(d, a);
      var t := Lookup(c, url, readable).0;
      if url in t.memory {
        assert Visible(d, url) && DiskAgrees(d, a, url);
      }
      forall u | Visible(t, u) ensures DiskAgrees(t, a, u) {
        assert Visible(d, u) && DiskAgrees(d, a, u);
      }
    }
  }

  lemma CommitRefines(c: Cache, a: Spec, url: Url, e: Entry, writable: bool)
    requires Refines(c, a)
    requires e.sha256 == Sha256(e.body)
    requires HarmlessCommit(c, url, e, writable)
    ensures Refines(Commit(c, url, e, writable), SpecPublish(a, url, e))
  {
    if Publishable(c.ttlMs, c.now, e) {
      var t, b := Commit(c, url, e, writable), SpecPublish(a, url, e);
      forall u | Visible(t, u) ensures DiskAgrees(t, b, u) {
        if u != url {
          assert Visible(c, u) && DiskAgrees(c, a, u);
        }
      }
    }
  }

  lemma RevokeRefines(c: Cache, a: Spec, url: Url)
    requires Refines(c, a)
    ensures Refines(Revoke(c, url), a.(live := a.live - {url}))
  {
    var t, b := Revoke(c, url), a.(live := a.live - {url});
    forall u | Visible(t, u) ensures DiskAgrees(t, b, u) {
      assert Visible(c, u) && DiskAgrees(c, a, u);
    }
  }

  lemma DropRefines(c: Cache, a: Spec, url: Url, unlinkRefused: bool)
    requires Refines(c, a)
    ensures Refines(Drop(c, url, unlinkRefused), a.(entries := a.entries - {url}, live := a.live - {url}))
  {
    var t, b := Drop(c, url, unlinkRefused), a.(entries := a.entries - {url}, live := a.live - {url});
    forall u | Visible(t, u) ensures DiskAgrees(t, b, u) {
      assert Visible(c, u) && DiskAgrees(c, a, u);
    }
  }

  lemma BeginLoadRefines(c: Cache, a: Spec, url: Url, readable: bool)
    requires Refines(c, a)
    ensures var (d, r) := BeginLoad(c, url, readable);
            var b := SpecAfter(a, LoadStart(url, readable), r);
            SpecStep(a, LoadStart(url, readable), r, b) && Refines(d, b)
  {
    LookupRefines(c, a, url, readable);
    var m := Lookup(c, url, readable).0;
    var (d, r) := BeginLoad(c, url, readable);
    var b := SpecAfter(a, LoadStart(url, readable), r);
    forall u | Visible(d, u) ensures DiskAgrees(d, b, u) {
      assert Visible(m, u) && DiskAgrees(m, a, u);
    }
  }

  lemma TickRefines(c: Cache, a: Spec, ms: nat)
    requires Refines(c, a)
    ensures Refines(c.(now := c.now + ms), a.(now := a.now + ms))
  {
    var t, b := c.(now := c.now + ms), a.(now := a.now + ms);
    forall u | Visible(t, u) ensures DiskAgrees(t, b, u) {
      assert Visible(c, u) && DiskAgrees(c, a, u);
    }
  }

  /** Every harmless step of the cache is a step of the map. */
  lemma StepRefines(c: Cache, a: Spec, e: Event)
    requires Refines(c, a) && Harmless(c, e)
    ensures var (d, r) := Step(c, e);
            var b := SpecAfter(a, e, r);
            SpecStep(a, e, r, b) && Refines(d, b)
  {
    match e
    case Tick(ms) => TickRefines(c, a, ms);
    case Get(url, readable) => LookupRefines(c, a, url, readable);
    case Invalidate(url, unlinkRefused) => DropRefines(c, a, url, unlinkRefused);
    case Put(url, body, fetchedAt, writable) =>
      RevokeRefines(c, a, url);
      CommitRefines(Revoke(c, url), a.(live := a.live - {url}), url, NewEntry(body, fetchedAt), writable);
    case LoadStart(url, readable) => BeginLoadRefines(c, a, url, readable);
    case LoadDone(url, token, body, writable) =>
      if Live(c, url, token) { CommitRefines(c, a, url, NewEntry(body, c.now), writable); }
    case LoadFinally(url, token) => if Live(c, url, token) { RevokeRefines(c, a, url); }
  }

  // ---------------------------------------------------------------------------
  // Every run
  // ---------------------------------------------------------------------------

  /** No step of the run publishes an entry older than a file its failed write leaves visible. */
  ghost predicate HarmlessRun(c: Cache, events: seq<Event>) {
    forall i :: 0 <= i < |events| ==> Harmless(Run(c, events[..i]), events[i])
  }

  function SpecRun(c: Cache, a: Spec, events: seq<Event>): Spec {
    if events == [] then a
    else
      var n := |events| - 1;
      SpecAfter(SpecRun(c, a, events[..n]), events[n], Step(Run(c, events[..n]), events[n]).1)
  }

  lemma {:induction false} RunRefines(c: Cache, a: Spec, events: seq<Event>)
    requires Refines(c, a) && HarmlessRun(c, events)
    ensures Refines(Run(c, events), SpecRun(c, a, events))
    ensures forall i :: 0 <= i < |events| ==>
              SpecStep(SpecRun(c, a, events[..i]), events[i], Step(Run(c, events[..i]), events[i]).1,
                       SpecRun(c, a, events[..i + 1]))
  {
    hide Step, Harmless, Refines, SpecStep, SpecAfter;
    if events == [] {
    } else {
      var n := |events| - 1;
      var init := events[..n];
      forall i | 0 <= i < |init| ensures Harmless(Run(c, init[..i]), init[i]) {
        assert init[..i] == events[..i];
      }
      RunRefines(c, a, init);
      assert Harmless(Run(c, events[..n]), events[n]);
      StepRefines(Run(c, init), SpecRun(c, a, init), events[n]);
      forall i | 0 <= i < |events|
        ensures SpecStep(SpecRun(c, a, events[..i]), events[i], Step(Run(c, events[..i]), events[i]).1,
                         SpecRun(c, a, events[..i + 1]))
      {
        if i < n {
          assert init[..i] == events[..i] && init[..i + 1] == events[..i + 1];
        } else {
          assert events[..i + 1] == events;
        }
      }
    }
  }

  /** Publications stamped with the current time, as every caller in the repository makes them. */
  predicate ClockStamped(c: Cache, e: Event) {
    e.Put? ==> e.fetchedAt == c.now
  }

  /** No well-formed file claims to have been fetched later than now. */
  predicate NoFutureFiles(c: Cache) {
    forall url :: url in c.disk && WellFormed(c.disk[url]) ==> c.disk[url].header.value.fetchedAt <= c.now
  }

  lemma ClockStampedStep(c: Cache, e: Event)
    requires NoFutureFiles(c) && ClockStamped(c, e)
    ensures Harmless(c, e) && NoFutureFiles(Step(c, e).0)
  {
  }

  /** With clock-stamped publications on a sane directory, every run refines the map. */
  lemma {:induction false} ClockStampedRuns(c: Cache, events: seq<Event>)
    requires NoFutureFiles(c)
    requires forall i :: 0 <= i < |events| ==> ClockStamped(Run(c, events[..i]), events[i])
    ensures HarmlessRun(c, events) && NoFutureFiles(Run(c, events))
  {
    hide Step, ClockStamped, Harmless, NoFutureFiles;
    if events == [] {
    } else {
      var n := |events| - 1;
      var init := events[..n];
      forall i | 0 <= i < |init| ensures ClockStamped(Run(c, init[..i]), init[i]) {
        assert init[..i] == events[..i];
      }
      ClockStampedRuns(c, init);
      ClockStampedStep(Run(c, init), events[n]);
      forall i | 0 <= i < |events| ensures Harmless(Run(c, events[..i]), events[i]) {
        if i < n {
          assert init[..i] == events[..i];
          assert Harmless(Run(c, init[..i]), init[i]);
        }
      }
    }
  }

  // ---------------------------------------------------------------------------
  // Exactly when a publication is safe
  // ---------------------------------------------------------------------------

  /** `ms` from now, reading `url` misses or finds the published entry. */
  ghost predicate FaithfulAfter(c: Cache, a: Spec, url: Url, ms: nat) {
    var hit := Lookup(c.(now := c.now + ms), url, true).1;
    hit.Some? ==> url in a.entries && Same(hit.value, a.entries[url])
  }

  ghost predicate FaithfulFromNow(c: Cache, a: Spec, url: Url) {
    forall ms: nat :: FaithfulAfter(c, a, url, ms)
  }

  /** The failing family: once memory has expired, the file that should be gone is served. */
  lemma StaleFileResurfaces(c: Cache, url: Url, e: Entry) returns (later: nat)
    requires !HarmlessCommit(c, url, e, false)
    ensures var t := Commit(c, url, e, false);
            Lookup(t.(now := t.now + later), url, true).1 == Some(FromFile(c.disk[url]))
    ensures !Same(FromFile(c.disk[url]), e)
  {
    later := Max(e.fetchedAt + c.ttlMs, c.disk[url].header.value.fetchedAt) - c.now;
  }

  /**
   * A `put` leaves the cache faithful iff it is harmless: the one failing family is a
   * failed disk write over a visible, more recent file.
   */
  lemma PutFaithfulIff(c: Cache, a: Spec, url: Url, body: Body, fetchedAt: int, writable: bool)
    requires Refines(c, a)
    ensures var e := Put(url, body, fetchedAt, writable);
            var (d, r) := Step(c, e);
            FaithfulFromNow(d, SpecAfter(a, e, r), url) <==> Harmless(c, e)
  {
    var e := Put(url, body, fetchedAt, writable);
    var (d, r) := Step(c, e);
    var b := SpecAfter(a, e, r);
    if Harmless(c, e) {
      StepRefines(c, a, e);
      forall ms: nat ensures FaithfulAfter(d, b, url, ms) {
        TickRefines(d, b, ms);
        LookupRefines(d.(now := d.now + ms), b.(now := b.now + ms), url, true);
      }
    } else {
      var later := StaleFileResurfaces(Revoke(c, url), url, NewEntry(body, fetchedAt));
      assert !FaithfulAfter(d, b, url, later);
    }
  }

  // ---------------------------------------------------------------------------
  // Revoked loads
  // ---------------------------------------------------------------------------

  /** The load that was given `token` may no longer publish. */
  ghost predicate Superseded(c: Cache, token: nat) {
    token < c.nextToken && forall url :: !Live(c, url, token)
  }

  /** A token is live for at most one URL, and only the load that got it holds it. */
  ghost predicate TokensInv(c: Cache) {
    && c.pending == c.generations
    && (forall url :: url in c.generations ==> c.generations[url] < c.nextToken)
    && (forall u, v :: u in c.generations && v in c.generations && c.generations[u] == c.generations[v] ==> u == v)
  }

  lemma TokensStep(c: Cache, e: Event)
    requires TokensInv(c)
    ensures TokensInv(Step(c, e).0)
  {
  }

  /** `invalidate` and `put` supersede the load in progress for their URL. */
  lemma SupersededBy(c: Cache, url: Url, token: nat, e: Event)
    requires TokensInv(c) && Live(c, url, token)
    requires (e.Put? && e.url == url) || (e.Invalidate? && e.url == url)
    ensures Superseded(Step(c, e).0, token)
  {
    var d := Step(c, e).0;
    forall u ensures !Live(d, u, token) {
      assert u in d.generations ==> u in c.generations && u != url;
    }
  }

  lemma SupersededStep(c: Cache, e: Event, token: nat)
    requires Superseded(c, token)
    ensures Superseded(Step(c, e).0, token)
  {
    var d := Step(c, e).0;
    forall u ensures !Live(d, u, token) {
      assert !Live(c, u, token);
    }
  }

  /** A superseded load never publishes: its completion, whenever it comes, changes nothing. */
  lemma {:induction false} SupersededNeverPublishes(c: Cache, token: nat, events: seq<Event>, url: Url, body: Body, writable: bool)
    requires Superseded(c, token)
    ensures var d := Run(c, events);
            && Superseded(d, token)
            && Step(d, LoadDone(url, token, body, writable)).0 == d
            && Step(d, LoadFinally(url, token)).0 == d
            && Step(d, LoadDone(url, token, body, writable)).1 == Delivered(NewEntry(body, d.now))
  {
    if events == [] {
    } else {
      SupersededNeverPublishes(c, token, events[..|events| - 1], url, body, writable);
      SupersededStep(Run(c, events[..|events| - 1]), events[|events| - 1], token);
    }
    assert !Live(Run(c, events), url, token);
  }

  /** Single flight: while a load for `url` is live, no second one starts. */
  lemma SingleFlight(c: Cache, url: Url, readable: bool)
    requires TokensInv(c)
    ensures Step(c, LoadStart(url, readable)).1.Started? ==> url !in c.generations
    ensures url in c.generations && !Step(c, LoadStart(url, readable)).1.Hit? ==>
              Step(c, LoadStart(url, readable)).1 == Joined(c.generations[url])
              && Step(c, LoadStart(url, readable)).0.generations == c.generations
  {
  }

  // ---------------------------------------------------------------------------
  // When reading hits
  // ---------------------------------------------------------------------------

  /** Fetched in the past, and carrying the digest of its bytes. */
  predicate Sound(e: Entry, now: int) {
    0 <= e.fetchedAt <= now && e.fetchedAt <= 9_007_199_254_740_991 && e.body != [] && e.sha256 == Sha256(e.body)
  }

  ghost predicate MemoryInv(c: Cache) {
    forall url :: url in c.memory ==> Sound(c.memory[url], c.now)
  }

  lemma LookupSound(c: Cache, url: Url, readable: bool)
    requires MemoryInv(c)
    ensures var d := Lookup(c, url, readable).0;
            MemoryInv(d) && d.ttlMs == c.ttlMs && d.now == c.now
  {
  }

  lemma CommitSound(c: Cache, url: Url, body: Body, fetchedAt: int, writable: bool)
    requires MemoryInv(c)
    ensures var d := Commit(c, url, NewEntry(body, fetchedAt), writable);
            MemoryInv(d) && d.ttlMs == c.ttlMs && d.now == c.now
  {
  }

  lemma MemoryStep(c: Cache, e: Event)
    requires MemoryInv(c)
    ensures MemoryInv(Step(c, e).0) && Step(c, e).0.ttlMs == c.ttlMs && Step(c, e).0.now >= c.now
  {
    match e {
      case Get(url, readable) => LookupSound(c, url, readable);
      case LoadStart(url, readable) => LookupSound(c, url, readable);
      case Put(url, body, fetchedAt, writable) => CommitSound(Revoke(c, url), url, body, fetchedAt, writable);
      case LoadDone(url, _, body, writable) => CommitSound(c, url, body, c.now, writable);
      case _ =>
    }
    hide Lookup, Commit, NewEntry;
  }

  lemma {:induction false} MemoryRun(c: Cache, events: seq<Event>)
    requires MemoryInv(c)
    ensures MemoryInv(Run(c, events)) && Run(c, events).ttlMs == c.ttlMs && Run(c, events).now >= c.now
  {
    hide Step, MemoryInv;
    if events == [] {
    } else {
      MemoryRun(c, events[..|events| - 1]);
      MemoryStep(Run(c, events[..|events| - 1]), events[|events| - 1]);
    }
  }

  /** Younger than the lifetime, by the clock of this reading. */
  predicate Young(c: Cache, fetchedAt: int) {
    0 <= c.now - fetchedAt < c.ttlMs
  }

  /** A complete cache file: its header is version one and agrees with the bytes that follow. */
  predicate Intact(f: File) {
    && f.header.Some? && f.header.value.version == 1
    && |f.body| > 0 && f.header.value.length == |f.body| && f.header.value.sha256 == Sha256(f.body)
    && f.header.value.fetchedAt >= 0 && f.header.value.fetchedAt <= 9_007_199_254_740_991
  }

  /**
   * In every run a read answers from memory while that is young, else from a readable file
   * that is intact, young and not hidden by a tombstone, which it keeps in memory with its
   * original time; else it misses. A load starts with the same read.
   */
  lemma ReadAnswers(ttlMs: nat, now: int, disk: map<Url, File>, events: seq<Event>, url: Url, readable: bool)
    ensures var c := Run(Init(ttlMs, now, disk), events);
            var (d, r) := Step(c, Get(url, readable));
            && (r == Miss || r.Hit?)
            && (if url in c.memory && Young(c, c.memory[url].fetchedAt)
                then r == Hit(Entry(c.memory[url].body, c.memory[url].fetchedAt, c.memory[url].sha256, Memory)) && d == c
                else if readable && url in c.disk && url !in c.blockedDisk && Intact(c.disk[url]) && Young(c, c.disk[url].header.value.fetchedAt)
                then r == Hit(Entry(c.disk[url].body, c.disk[url].header.value.fetchedAt, Sha256(c.disk[url].body), Disk))
                     && url in d.memory && d.memory[url] == r.entry
                else r == Miss)
            && var load := Step(c, LoadStart(url, readable)).1; if r.Hit? then load == r else load.Started? || load.Joined?
  {
    MemoryRun(Init(ttlMs, now, disk), events);
    hide Run;
  }

  /** The step publishes this body for the URL, and its time if its disk write succeeds. */
  predicate Publishes(c: Cache, e: Event, url: Url, body: Body, fetchedAt: int) {
    && |body| > 0 && Young(c, fetchedAt) && 0 <= fetchedAt <= 9_007_199_254_740_991
    && ((e.Put? && e.url == url && e.body == body && e.fetchedAt == fetchedAt)
        || (e.LoadDone? && e.url == url && e.body == body && fetchedAt == c.now
            && url in c.generations && c.generations[url] == e.token))
  }

  predicate WritesFile(e: Event) {
    (e.Put? && e.writable) || (e.LoadDone? && e.writable)
  }

  /** The event neither publishes nor invalidates the URL. */
  predicate LeavesAlone(e: Event, url: Url) {
    !((e.Put? && e.url == url) || (e.LoadDone? && e.url == url) || (e.Invalidate? && e.url == url))
  }

  ghost predicate HoldsFor(c: Cache, url: Url, body: Body, fetchedAt: int) {
    && fetchedAt <= c.now
    && (Young(c, fetchedAt) ==>
          url in c.memory && c.memory[url].body == body && c.memory[url].fetchedAt == fetchedAt && c.memory[url].sha256 == Sha256(body))
  }

  ghost predicate FileFor(c: Cache, url: Url, body: Body, fetchedAt: int) {
    url in c.disk && url !in c.blockedDisk && c.disk[url] == File(Some(Header(1, fetchedAt, |body|, Sha256(body))), body)
  }

  lemma PublishedNow(c: Cache, e: Event, url: Url, body: Body, fetchedAt: int)
    requires Publishes(c, e, url, body, fetchedAt)
    ensures HoldsFor(Step(c, e).0, url, body, fetchedAt) && (WritesFile(e) ==> FileFor(Step(c, e).0, url, body, fetchedAt))
  {
  }

  lemma LeftAloneStep(c: Cache, e: Event, url: Url, body: Body, fetchedAt: int)
    requires LeavesAlone(e, url) && MemoryInv(c)
    ensures HoldsFor(c, url, body, fetchedAt) && 0 <= fetchedAt <= 9_007_199_254_740_991 ==> HoldsFor(Step(c, e).0, url, body, fetchedAt)
    ensures FileFor(c, url, body, fetchedAt) ==> FileFor(Step(c, e).0, url, body, fetchedAt)
  {
  }

  lemma {:induction false} LeftAloneRun(c: Cache, events: seq<Event>, url: Url, body: Body, fetchedAt: int)
    requires MemoryInv(c) && 0 <= fetchedAt <= 9_007_199_254_740_991
    requires forall i :: 0 <= i < |events| ==> LeavesAlone(events[i], url)
    ensures HoldsFor(c, url, body, fetchedAt) ==> HoldsFor(Run(c, events), url, body, fetchedAt)
    ensures FileFor(c, url, body, fetchedAt) ==> FileFor(Run(c, events), url, body, fetchedAt)
  {
    hide Step, MemoryInv, HoldsFor, FileFor, LeavesAlone;
    if events == [] {
    } else {
      var before := events[..|events| - 1];
      LeftAloneRun(c, before, url, body, fetchedAt);
      MemoryRun(c, before);
      LeftAloneStep(Run(c, before), events[|events| - 1], url, body, fetchedAt);
    }
  }

  /**
   * What was published is served until its lifetime has passed, though every read and write
   * of the disk fail: after any run that neither publishes nor invalidates the URL again.
   */
  lemma PublishedIsServed(c: Cache, e: Event, events: seq<Event>, url: Url, body: Body, fetchedAt: int, readable: bool)
    requires MemoryInv(c) && Publishes(c, e, url, body, fetchedAt)
    requires forall i :: 0 <= i < |events| ==> LeavesAlone(events[i], url)
    ensures var d := Run(Step(c, e).0, events);
            Young(d, fetchedAt) ==>
              && Step(d, Get(url, readable)).1 == Hit(Entry(body, fetchedAt, Sha256(body), Memory))
              && Step(d, LoadStart(url, readable)).1 == Hit(Entry(body, fetchedAt, Sha256(body), Memory))
  {
    PublishedNow(c, e, url, body, fetchedAt);
    MemoryStep(c, e);
    LeftAloneRun(Step(c, e).0, events, url, body, fetchedAt);
    hide Run;
  }

  /** If its file was written too, a new process over that directory serves the same bytes, with their time. */
  lemma PublishedSurvivesRestart(c: Cache, e: Event, events: seq<Event>, url: Url, body: Body, fetchedAt: int, ttlMs: nat, now: int)
    requires MemoryInv(c) && Publishes(c, e, url, body, fetchedAt) && WritesFile(e)
    requires forall i :: 0 <= i < |events| ==> LeavesAlone(events[i], url)
    requires 0 <= now - fetchedAt < ttlMs
    ensures Step(Init(ttlMs, now, Run(Step(c, e).0, events).disk), Get(url, true)).1 == Hit(Entry(body, fetchedAt, Sha256(body), Disk))
  {
    PublishedNow(c, e, url, body, fetchedAt);
    MemoryStep(c, e);
    LeftAloneRun(Step(c, e).0, events, url, body, fetchedAt);
    hide Run;
  }

  /** A publication that is empty, expired or from the future stores nothing. */
  lemma StoresIff(c: Cache, url: Url, body: Body, fetchedAt: int, writable: bool)
    ensures var d := Step(c, Put(url, body, fetchedAt, writable)).0;
            if |body| > 0 && Young(c, fetchedAt) && 0 <= fetchedAt <= 9_007_199_254_740_991
            then url in d.memory && d.memory[url] == Entry(body, fetchedAt, Sha256(body), Network)
            else d.memory == c.memory && d.disk == c.disk && d.blockedDisk == c.blockedDisk
  {
  }

  ghost predicate Gone(c: Cache, url: Url) {
    url !in c.memory && (url in c.disk ==> url in c.blockedDisk)
  }

  lemma GoneStep(c: Cache, e: Event, url: Url)
    requires Gone(c, url) && LeavesAlone(e, url)
    ensures Gone(Step(c, e).0, url)
    ensures url !in c.disk ==> url !in Step(c, e).0.disk
  {
  }

  lemma {:induction false} GoneRun(c: Cache, events: seq<Event>, url: Url)
    requires Gone(c, url) && forall i :: 0 <= i < |events| ==> LeavesAlone(events[i], url)
    ensures Gone(Run(c, events), url)
    ensures url !in c.disk ==> url !in Run(c, events).disk
  {
    hide Step, Gone, LeavesAlone;
    if events == [] {
    } else {
      GoneRun(c, events[..|events| - 1], url);
      GoneStep(Run(c, events[..|events| - 1]), events[|events| - 1], url);
    }
  }

  /**
   * What was invalidated is not served until it is published again; a new process does not
   * serve it either, unless removing the file was refused.
   */
  lemma InvalidatedIsGone(c: Cache, events: seq<Event>, url: Url, unlinkRefused: bool, readable: bool, ttlMs: nat, now: int)
    requires forall i :: 0 <= i < |events| ==> LeavesAlone(events[i], url)
    ensures var d := Run(Step(c, Invalidate(url, unlinkRefused)).0, events);
            && Step(d, Get(url, readable)).1 == Miss
            && !Step(d, LoadStart(url, readable)).1.Hit?
            && (!unlinkRefused ==> Step(Init(ttlMs, now, d.disk), Get(url, readable)).1 == Miss)
    ensures var d := Step(c, Invalidate(url, unlinkRefused)).0;
            (url in d.blockedDisk <==> unlinkRefused) && (unlinkRefused ==> d.disk == c.disk)
  {
    GoneRun(Step(c, Invalidate(url, unlinkRefused)).0, events, url);
    hide Run;
  }

  /** Time passes, and nothing else; a new cache has nothing in memory and hides no file. */
  lemma TimePasses(c: Cache, ms: nat, ttlMs: nat, now: int, disk: map<Url, File>)
    ensures Step(c, Tick(ms)) == (c.(now := c.now + ms), Nothing)
    ensures var d := Init(ttlMs, now, disk);
            d.ttlMs == ttlMs && d.now == now && d.memory == map[] && d.pending == map[] && d.generations == map[] && d.blockedDisk == {} && d.disk == disk
  {
  }
}
