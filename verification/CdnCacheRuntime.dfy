/**
 * The CDN cache in the source's own form.  Each method is proved to be one step of
 * module `CdnCache`; the directory is the field `disk`, and the flags say which file
 * operations succeed.
 */
module CdnCacheRuntime {
  import opened Util
  import opened C = CdnCache

  class CaptchaCdnCache {
    const ttlMs: nat
    var now: int
    var memory: map<Url, Entry>
    var pending: map<Url, nat>
    var generations: map<Url, nat>
    var blockedDisk: set<Url>
    var disk: map<Url, File>
    var nextToken: nat

    ghost function State(): Cache
      reads this
    {
      Cache(ttlMs, now, memory, pending, generations, blockedDisk, disk, nextToken)
    }

    constructor (ttlMs: nat, now: int, disk: map<Url, File>)
      ensures State() == Init(ttlMs, now, disk)
    {
      this.ttlMs := ttlMs;
      this.now := now;
      memory, pending, generations := map[], map[], map[];
      blockedDisk := {};
      this.disk := disk;
      nextToken := 0;
    }

    method Read(url: Url, readable: bool) returns (hit: Option<Entry>)
      modifies this`memory
      ensures (State(), hit) == Lookup(old(State()), url, readable)
    {
      hit := None;
      if ttlMs == 0 {
        return;
      }
      if url in memory && Fresh(ttlMs, now, memory[url].fetchedAt) {
        hit := Some(memory[url].(source := Memory));
        return;
      }
      memory := memory - {url};
      if url in blockedDisk || !readable || url !in disk {
        return;
      }
      var file := disk[url];
      if !WellFormed(file) || !Fresh(ttlMs, now, file.header.value.fetchedAt) {
        return;
      }
      var entry := FromFile(file);
      memory := memory[url := entry];
      hit := Some(entry);
    }

    method InvalidateUrl(url: Url, unlinkRefused: bool)
      modifies this
      ensures State() == Drop(old(State()), url, unlinkRefused)
    {
      generations := generations - {url};
      pending := pending - {url};
      memory := memory - {url};
      if unlinkRefused {
        blockedDisk := blockedDisk + {url};
      } else {
        disk := disk - {url};
        blockedDisk := blockedDisk - {url};
      }
    }

    method Publish(url: Url, entry: Entry, writable: bool)
      modifies this
      ensures State() == Commit(old(State()), url, entry, writable)
    {
      if entry.body == [] || !Fresh(ttlMs, now, entry.fetchedAt) {
        return;
      }
      memory := memory[url := entry];
      if writable {
        disk := disk[url := ToFile(entry)];
        blockedDisk := blockedDisk - {url};
      }
    }

    method PutBody(url: Url, body: Body, fetchedAt: int, writable: bool) returns (entry: Entry)
      modifies this
      ensures (State(), Delivered(entry)) == Step(old(State()), Put(url, body, fetchedAt, writable))
    {
      generations := generations - {url};
      pending := pending - {url};
      entry := NewEntry(body, fetchedAt);
      Publish(url, entry, writable);
    }

    /** The first section of `load`: a hit, a shared pending load, or a new one. */
    method StartLoad(url: Url, readable: bool) returns (r: Response)
      modifies this
      ensures (State(), r) == BeginLoad(old(State()), url, readable)
    {
      var hit := Read(url, readable);
      if hit.Some? {
        r := Hit(hit.value);
        return;
      }
      if url in pending {
        r := Joined(pending[url]);
        return;
      }
      r := Started(nextToken);
      generations := generations[url := nextToken];
      pending := pending[url := nextToken];
      nextToken := nextToken + 1;
    }

    /** The fetch resolved. */
    method FinishFetch(url: Url, token: nat, body: Body, writable: bool) returns (entry: Entry)
      modifies this
      ensures (State(), Delivered(entry)) == Step(old(State()), LoadDone(url, token, body, writable))
    {
      entry := NewEntry(body, now);
      if url in generations && generations[url] == token {
        Publish(url, entry, writable);
      }
    }

    /** The `finally` section of a load. */
    method ReleaseLoad(url: Url, token: nat)
      modifies this
      ensures State() == Step(old(State()), LoadFinally(url, token)).0
    {
      if url in generations && generations[url] == token {
        generations := generations - {url};
        pending := pending - {url};
      }
    }
  }
}
