/** The table of message ids seen within a time to live. Instants are naturals that only grow. */
module Dedupe {

  /** When each remembered id was recorded. */
  type Seen = map<string, nat>

  predicate Remembers(ttl: nat, seen: Seen, id: string, now: nat) {
    id in seen && now <= seen[id] + ttl
  }

  /** The table without the entries that are too old at `now`. */
  function Sweep(ttl: nat, seen: Seen, now: nat): Seen {
    map id | id in seen && now <= seen[id] + ttl :: seen[id]
  }

  function SweepAll(ttl: nat, seen: Seen, times: seq<nat>): Seen
    decreases |times|
  {
    if times == [] then seen else SweepAll(ttl, Sweep(ttl, seen, times[0]), times[1..])
  }

  /** The table after `id` was asked for: a stale entry is dropped. */
  function AfterCheck(ttl: nat, seen: Seen, id: string, now: nat): Seen {
    if id in seen && seen[id] + ttl < now then seen - {id} else seen
  }

  /** Sweeps never change what is remembered at a later time. */
  lemma {:induction false} SweepsKeep(ttl: nat, seen: Seen, times: seq<nat>, id: string, now: nat)
    requires forall k :: 0 <= k < |times| ==> times[k] <= now
    ensures Remembers(ttl, SweepAll(ttl, seen, times), id, now) <==> Remembers(ttl, seen, id, now)
    ensures id in SweepAll(ttl, seen, times) ==> id in seen && SweepAll(ttl, seen, times)[id] == seen[id]
    decreases |times|
  {
    if times != [] {
      SweepsKeep(ttl, Sweep(ttl, seen, times[0]), times[1..], id, now);
    }
  }

  class DedupCache {
    const ttl: nat
    var seen: Seen

    constructor (ttl: nat)
      ensures this.ttl == ttl && seen == map[]
    {
      this.ttl := ttl;
      seen := map[];
    }

    method Contains(id: string, now: nat) returns (found: bool)
      modifies this
      ensures found == Remembers(ttl, old(seen), id, now)
      ensures seen == AfterCheck(ttl, old(seen), id, now)
    {
      if id in seen {
        if now <= seen[id] + ttl {
          return true;
        }
        seen := seen - {id};
      }
      found := false;
    }

    method Record(id: string, now: nat)
      modifies this
      ensures seen == old(seen)[id := now]
    {
      seen := seen[id := now];
    }

    method Expire(now: nat)
      modifies this
      ensures seen == Sweep(ttl, old(seen), now)
    {
      var left := seen.Keys;
      var kept: Seen := map[];
      while left != {}
        invariant left <= seen.Keys && seen == old(seen)
        invariant kept == map id | id in seen && id !in left && now <= seen[id] + ttl :: seen[id]
        decreases |left|
      {
        var id :| id in left;
        left := left - {id};
        if now <= seen[id] + ttl {
          kept := kept[id := seen[id]];
        }
      }
      seen := kept;
    }

    /** The background task, at the instants it ran. */
    method Sweeper(times: seq<nat>)
      modifies this
      ensures seen == SweepAll(ttl, old(seen), times)
    {
      for k := 0 to |times|
        invariant SweepAll(ttl, seen, times[k..]) == SweepAll(ttl, old(seen), times)
      {
        Expire(times[k]);
        assert times[k..][1..] == times[k + 1..];
      }
    }
  }
}
