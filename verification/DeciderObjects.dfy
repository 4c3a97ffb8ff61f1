/**
 The repository as an object, in the source's imperative form: `LoadRef` through cache,
 snapshot or full replay, and `ExecuteRef` around it. A call that is not interleaved with
 others is one step of the serial reference.
 */
module DeciderObjects {
  import opened Basics
  import opened Deciders
  import opened DeciderSystem
  import opened DeciderAlone

  predicate ReadsWork(f: Faults) {
    !f.tailRead && !f.snapshotRead && !f.storeRead
  }

  /** The load that came before makes no difference to what a save leaves in the cache. */
  lemma {:induction false} CachesOverLoad<S, E, B>(cfg: Config<S, E, B>, cache: map<string, Entry<S>>, ref: string,
                                                  l: Load<S>, stream: seq<E>)
    requires l.Loaded?
    ensures CacheAfterSave(cfg, CacheAfterLoad(cfg, cache, ref, l), ref, stream) == CacheAfterSave(cfg, cache, ref, stream)
  {
    var saved := Replayed(cfg.decider, stream);
    assert cache[ref := Entry(l.state, l.version)] - {ref} == cache - {ref};
    assert saved.Loaded? ==>
        cache[ref := Entry(l.state, l.version)][ref := Entry(saved.state, saved.version)]
          == cache[ref := Entry(saved.state, saved.version)];
  }

  /** With working reads a load is the full replay, failing or not, unless it needs a stream that is not there. */
  lemma {:induction false} LoadsUnlessStranded<S, E, B>(cfg: Config<S, E, B>, w: World<S, E, B>, ref: string, f: Faults)
    ensures ReadsWork(f) ==>
              (LoadAlone(cfg, w, ref, f) == ReplayLoad(cfg, w, ref) <==> !(cfg.snapshotting && Orphan(cfg, w, ref)))
  {
  }

  class Repository<S(!new), E, B> {
    const cfg: Config<S, E, B>
    var streams: map<string, seq<E>>
    var cache: map<string, Entry<S>>
    var snapshots: map<string, Snapshot<B>>
    var published: seq<E>

    ghost function View(): World<S, E, B>
      reads this
    {
      World(streams, cache, snapshots)
    }

    ghost predicate Valid()
      reads this
    {
      Lawful(cfg) && Sound(cfg, View())
    }

    /** No snapshot that would be used lacks its stream. */
    ghost predicate Backed()
      reads this
    {
      forall ref :: ref in snapshots && !ShapeMismatch(cfg, snapshots[ref]) ==> ref in streams
    }

    /** A load of this stream would use a snapshot and then find no stream to read on from. */
    ghost predicate Stranded(ref: string)
      reads this
    {
      cfg.snapshotting && Orphan(cfg, View(), ref)
    }

    constructor (cfg: Config<S, E, B>, streams: map<string, seq<E>>)
      requires Lawful(cfg)
      ensures Valid() && Backed() && this.cfg == cfg && this.streams == streams && published == []
    {
      this.cfg := cfg;
      this.streams := streams;
      cache, snapshots, published := map[], map[], [];
    }

    method FoldEvents(state: S, events: seq<E>) returns (r: Option<S>)
      ensures r == Fold(cfg.decider, state, events)
      ensures r.Some? ==> Leads(cfg.decider, state, events, r.value)
      ensures r.None? ==> Refuses(cfg.decider, state, events)
    {
      FoldAppliesEveryEvent(cfg.decider, state, events);
      var current := state;
      for i := 0 to |events|
        invariant Fold(cfg.decider, current, events[i..]) == Fold(cfg.decider, state, events)
      {
        assert events[i..][1..] == events[i + 1..];
        var next := cfg.decider.apply(current, events[i]);
        if next.None? {
          return None;
        }
        current := next.value;
      }
      return Some(current);
    }

    method PutState(ref: string, state: S, version: nat)
      requires Valid() && Grounded(cfg.decider, Stream(View(), ref), state, version)
      modifies this`cache
      ensures Valid() && cache == old(cache)[ref := Entry(state, version)]
    {
      cache := cache[ref := Entry(state, version)];
    }

    method Invalidate(ref: string)
      requires Valid()
      modifies this`cache
      ensures Valid() && cache == old(cache) - {ref}
    {
      cache := cache - {ref};
    }

    method LoadFromStore(ref: string, fails: bool) returns (l: Load<S>)
      ensures l == if fails then Failed else ReplayLoad(cfg, View(), ref)
    {
      if fails {
        return Failed;
      }
      var events := if ref in streams then streams[ref] else [];
      var state := FoldEvents(cfg.decider.initial, events);
      l := if state.None? then Failed else Loaded(state.value, |events|);
    }

    /** A successful load is the full replay; with working reads the load is the full replay, failing
        or not, if and only if a snapshot that is used has a stream. A snapshot is used unless both shapes
        are declared and differ; then the store is read from the snapshot's version on only. */
    method LoadFromSnapshot(ref: string, f: Faults) returns (l: Load<S>)
      requires Valid()
      ensures l.Loaded? ==> l == ReplayLoad(cfg, View(), ref)
      ensures ReadsWork(f) ==> (l == ReplayLoad(cfg, View(), ref) <==> !Orphan(cfg, View(), ref))
      ensures f.snapshotRead ==> l.Failed?
      ensures !f.snapshotRead ==>
                if ref in snapshots && (cfg.shape == "" || snapshots[ref].shape in {"", cfg.shape})
                then l == if f.tailRead || ref !in streams then Failed else ReplayLoad(cfg, View(), ref)
                else l == if f.storeRead then Failed else ReplayLoad(cfg, View(), ref)
    {
      LoadPathsAgree(cfg, View(), ref);
      if f.snapshotRead {
        return Failed;
      }
      if ref !in snapshots || ShapeMismatch(cfg, snapshots[ref]) {
        l := LoadFromStore(ref, f.storeRead);
        return;
      }
      var snap := snapshots[ref];
      var decoded := cfg.codec.decode(snap.bytes);
      if decoded.None? || f.tailRead || ref !in streams {
        return Failed;
      }
      var events := TailFrom(streams[ref], snap.version, |streams[ref]|);
      var state := FoldEvents(decoded.value, events);
      l := if state.None? then Failed else Loaded(state.value, snap.version + |events|);
    }

    /** A hit is the full replay and refreshes the entry; anything else drops it. It is a hit exactly
        when there is an entry, the tail can be read and the replay succeeds. */
    method LoadFromCache(ref: string, tailFails: bool) returns (l: Load<S>)
      requires Valid()
      modifies this`cache
      ensures Valid()
      ensures l.Loaded? ==> l == ReplayLoad(cfg, old(View()), ref) && ref in streams
      ensures l.Loaded? ==> cache == old(cache)[ref := Entry(l.state, l.version)]
      ensures l.Failed? ==> cache == old(cache) - {ref}
      ensures l.Loaded? <==> ref in old(cache) && !tailFails && ref in streams && ReplayLoad(cfg, old(View()), ref).Loaded?
    {
      LoadPathsAgree(cfg, View(), ref);
      if ref !in cache {
        assert cache - {ref} == cache;
        return Failed;
      }
      var entry := cache[ref];
      if tailFails || ref !in streams {
        Invalidate(ref);
        return Failed;
      }
      var events := TailFrom(streams[ref], entry.version, |streams[ref]|);
      if events == [] {
        assert cache == cache[ref := entry];
        return Loaded(entry.state, entry.version);
      }
      var state := FoldEvents(entry.state, events);
      if state.None? {
        Invalidate(ref);
        return Failed;
      }
      l := Loaded(state.value, entry.version + |events|);
      ReplayIsGrounded(cfg.decider, streams[ref]);
      PutState(ref, l.state, l.version);
    }

    /** The load behind the cache: from the snapshot if there are snapshots, else by full replay. */
    method LoadUncached(ref: string, f: Faults) returns (l: Load<S>)
      requires Valid()
      ensures l == if FallBackFails(cfg, View(), ref, f) then Failed else ReplayLoad(cfg, View(), ref)
      ensures ReadsWork(f) ==> (l == ReplayLoad(cfg, View(), ref) <==> !Stranded(ref))
    {
      if cfg.snapshotting {
        l := LoadFromSnapshot(ref, f);
      } else {
        l := LoadFromStore(ref, f.storeRead);
      }
    }

    /** What `LoadRef` and `ExecuteRef` load. */
    method LoadCached(ref: string, f: Faults) returns (l: Load<S>)
      requires Valid()
      modifies this`cache
      ensures Valid()
      ensures l == LoadAlone(cfg, old(View()), ref, f)
      ensures cache == CacheAfterLoad(cfg, old(cache), ref, l)
    {
      if cfg.cached {
        l := LoadFromCache(ref, f.tailRead);
        if l.Loaded? {
          return;
        }
      }
      l := LoadUncached(ref, f);
      CacheAfterMiss(cfg, old(cache), ref, l);
      if l.Loaded? && cfg.cached {
        ReplayIsGrounded(cfg.decider, Stream(View(), ref));
        PutState(ref, l.state, l.version);
      }
    }

    /** Whichever path served it, a successful load is the full replay of the stream, and with
        working reads the load is the full replay, failing or not, if and only if it is not stranded. The
        full replay applies every event of the stream in turn, from the initial state. */
    method LoadRef(ref: string, f: Faults) returns (l: Load<S>)
      requires Valid()
      modifies this`cache
      ensures Valid()
      ensures l.Loaded? ==> l == ReplayLoad(cfg, old(View()), ref)
      ensures ReadsWork(f) ==> (l == ReplayLoad(cfg, old(View()), ref) <==> !old(Stranded(ref)))
      ensures var stream, d := Stream(old(View()), ref), cfg.decider;
              && (l.Loaded? ==> l.version == |stream| && Leads(d, d.initial, stream, l.state))
              && (l.Failed? && ReadsWork(f) && !old(Stranded(ref)) ==> Refuses(d, d.initial, stream))
      ensures l.Loaded? && cfg.cached ==> cache == old(cache)[ref := Entry(l.state, l.version)]
      ensures !cfg.cached ==> cache == old(cache)
    {
      ReplayMeans(cfg, View(), ref);
      LoadsUnlessStranded(cfg, View(), ref, f);
      l := LoadCached(ref, f);
    }

    /** The optimistic append. */
    method Save(ref: string, events: seq<E>, expected: nat, f: Faults) returns (ok: bool)
      requires Valid()
      modifies this`streams
      ensures Valid()
      ensures var accepted := !f.save && |Stream(old(View()), ref)| == expected;
              && streams == (if accepted then Appended(old(streams), ref, events) else old(streams))
              && (ok <==> accepted && !f.acknowledge)
    {
      var stream := if ref in streams then streams[ref] else [];
      if f.save || |stream| != expected {
        return false;
      }
      SoundGrows(cfg, View(), ref, events);
      if events != [] {
        streams := streams[ref := stream + events];
      }
      ok := !f.acknowledge;
    }

    /** Best effort: only a decodable fold of the new events is ever stored. */
    method SaveSnapshotAfterEvents(ref: string, state: S, version: nat, events: seq<E>, due: bool)
      requires Valid() && Follows(cfg.decider, Stream(View(), ref), state, version, events)
      modifies this`snapshots
      ensures Valid() && (old(Backed()) && ref in streams ==> Backed())
      ensures var final := Fold(cfg.decider, state, events);
              snapshots == if due && cfg.snapshotting && final.Some? && cfg.codec.encode(final.value).Some?
                           then old(snapshots)[ref := Snapshot(cfg.codec.encode(final.value).value,
                                                               version + |events|, cfg.shape)]
                           else old(snapshots)
    {
      if !due || !cfg.snapshotting {
        return;
      }
      var final := FoldEvents(state, events);
      if final.None? {
        return;
      }
      var bytes := cfg.codec.encode(final.value);
      if bytes.Some? {
        FollowsFolds(cfg.decider, Stream(View(), ref), state, version, events);
        snapshots := snapshots[ref := Snapshot(bytes.value, version + |events|, cfg.shape)];
      }
    }

    method UpdateCacheAfterExecute(ref: string, state: S, version: nat, events: seq<E>)
      requires Valid() && Follows(cfg.decider, Stream(View(), ref), state, version, events)
      modifies this`cache
      ensures Valid()
      ensures cache == match Fold(cfg.decider, state, events)
                       case None => old(cache) - {ref}
                       case Some(final) => old(cache)[ref := Entry(final, version + |events|)]
    {
      FollowsFolds(cfg.decider, Stream(View(), ref), state, version, events);
      var final := FoldEvents(state, events);
      if final.None? {
        Invalidate(ref);
      } else {
        PutState(ref, final.value, version + |events|);
      }
    }

    /** What follows an acknowledged save: publish, then snapshot and cache as best they can. */
    method AfterSave(ref: string, state: S, version: nat, events: seq<E>, f: Faults) returns (r: Result)
      requires Valid() && Follows(cfg.decider, Stream(View(), ref), state, version, events)
      requires |Stream(View(), ref)| == version + |events|
      modifies this`published, this`snapshots, this`cache
      ensures Valid() && (old(Backed()) && ref in streams ==> Backed())
      ensures r == if f.publish then PublishError else Saved
      ensures published == if f.publish then old(published) else old(published) + events
      ensures f.publish ==> cache == old(cache) && snapshots == old(snapshots)
      ensures !f.publish ==>
                && cache == CacheAfterSave(cfg, old(cache), ref, Stream(View(), ref))
                && snapshots == SnapshotsAfterSave(cfg, old(snapshots), ref, Stream(View(), ref), f.snapshotDue)
    {
      if f.publish {
        return PublishError;
      }
      FollowsToTheEnd(cfg.decider, Stream(View(), ref), state, version, events);
      published := published + events;
      SaveSnapshotAfterEvents(ref, state, version, events, f.snapshotDue);
      if cfg.cached {
        UpdateCacheAfterExecute(ref, state, version, events);
      }
      return Saved;
    }

    /** The end of a call that has events to save onto the full replay. */
    method SaveAndPublish(ref: string, state: S, version: nat, events: seq<E>, f: Faults) returns (r: Result)
      requires Valid() && ReplayLoad(cfg, View(), ref) == Loaded(state, version) && events != []
      modifies this
      ensures Valid() && (old(Backed()) ==> Backed())
      ensures r == if f.save then SaveError
                   else if f.acknowledge then Unacknowledged else if f.publish then PublishError else Saved
      ensures streams == if f.save then old(streams) else Appended(old(streams), ref, events)
      ensures published == if r.Saved? then old(published) + events else old(published)
      ensures !r.Saved? ==> cache == old(cache) && snapshots == old(snapshots)
      ensures r.Saved? ==>
                && cache == CacheAfterSave(cfg, old(cache), ref, Stream(View(), ref))
                && snapshots == SnapshotsAfterSave(cfg, old(snapshots), ref, Stream(View(), ref), f.snapshotDue)
      ensures EndsAs(SaveAlone(cfg, ref, f, old(View()), events), View(), r, old(published), published)
    {
      ghost var before := Stream(View(), ref);
      ReplayIsGrounded(cfg.decider, before);
      var ok := Save(ref, events, version, f);
      if !ok {
        return if f.save then SaveError else Unacknowledged;
      }
      AppendFollows(cfg.decider, before, state, version, events);
      r := AfterSave(ref, state, version, events, f);
    }

    /** The rest of a call whose load was the full replay. */
    method DecideAndSave(ref: string, decide: Decide<S, E>, state: S, version: nat, f: Faults) returns (r: Result)
      requires Valid() && ReplayLoad(cfg, View(), ref) == Loaded(state, version)
      modifies this
      ensures Valid() && (old(Backed()) ==> Backed())
      ensures r == match decide(state, version)
                   case None => Rejected
                   case Some(events) =>
                     if events == [] then NoEvents else if f.save then SaveError
                     else if f.acknowledge then Unacknowledged else if f.publish then PublishError else Saved
      ensures !r.Saved? ==> cache == old(cache) && snapshots == old(snapshots)
      ensures r.Saved? ==>
                && cache == CacheAfterSave(cfg, old(cache), ref, Stream(View(), ref))
                && snapshots == SnapshotsAfterSave(cfg, old(snapshots), ref, Stream(View(), ref), f.snapshotDue)
      ensures HasSaved<S, E>(Ended(r)) ==>
                && Applies(cfg.decider, old(streams), Call(0, ref, decide))
                && streams == SerialStep(cfg.decider, old(streams), Call(0, ref, decide))
      ensures !HasSaved<S, E>(Ended(r)) ==> streams == old(streams)
      ensures !f.save ==> (HasSaved<S, E>(Ended(r)) <==> Applies(cfg.decider, old(streams), Call(0, ref, decide)))
      ensures r.Saved? ==> |published| > |old(published)| && old(published) <= published &&
                           streams[ref] == Stream(old(View()), ref) + published[|old(published)|..]
      ensures !r.Saved? ==> published == old(published)
      ensures EndsAs(DecideAlone(Job(cfg, ref, decide, f), old(View()), Loaded(state, version)), View(), r,
                     old(published), published)
    {
      LoadedApplies(cfg.decider, streams, ref, decide, state, version);
      var decision := decide(state, version);
      if decision.None? {
        return Rejected;
      }
      var events := decision.value;
      if events == [] {
        return NoEvents;
      }
      r := SaveAndPublish(ref, state, version, events, f);
    }

    /** A call that is not interleaved is one serial step when it saves and changes no stream when
        it does not; if nothing fails it saves if and only if the call applies and its load is not
        stranded. It strands none. */
    method ExecuteRef(ref: string, decide: Decide<S, E>, f: Faults) returns (r: Result)
      requires Valid()
      modifies this
      ensures Valid() && (old(Backed()) ==> Backed())
      ensures HasSaved<S, E>(Ended(r)) ==>
                && Applies(cfg.decider, old(streams), Call(0, ref, decide))
                && streams == SerialStep(cfg.decider, old(streams), Call(0, ref, decide))
      ensures !HasSaved<S, E>(Ended(r)) ==> streams == old(streams)
      ensures ReadsWork(f) && !f.save ==>
                (HasSaved<S, E>(Ended(r)) <==>
                   Applies(cfg.decider, old(streams), Call(0, ref, decide)) && !old(Stranded(ref)))
      ensures r.Saved? ==> |published| > |old(published)| && old(published) <= published &&
                           streams[ref] == Stream(old(View()), ref) + published[|old(published)|..]
      ensures !r.Saved? ==> published == old(published)
      ensures ReadsWork(f) ==>
                var l := ReplayLoad(cfg, old(View()), ref);
                && (r.LoadError? <==> l.Failed? || old(Stranded(ref)))
                && (r.Rejected? <==> !old(Stranded(ref)) && l.Loaded? && decide(l.state, l.version).None?)
                && (r.NoEvents? <==> !old(Stranded(ref)) && l.Loaded? && decide(l.state, l.version) == Some([]))
      ensures HasSaved<S, E>(Ended(r)) ==>
                (r.Unacknowledged? <==> f.acknowledge) && (r.PublishError? <==> !f.acknowledge && f.publish)
      ensures !r.Saved? ==> snapshots == old(snapshots)
      ensures r.Saved? ==>
                && cache == CacheAfterSave(cfg, old(cache), ref, Stream(View(), ref))
                && snapshots == SnapshotsAfterSave(cfg, old(snapshots), ref, Stream(View(), ref), f.snapshotDue)
      ensures EndsAs(CallAlone(Job(cfg, ref, decide, f), old(View())), View(), r, old(published), published)
    {
      LoadsUnlessStranded(cfg, View(), ref, f);
      var l := LoadCached(ref, f);
      if l.Failed? {
        return LoadError;
      }
      r := DecideAndSave(ref, decide, l.state, l.version, f);
      if r.Saved? {
        CachesOverLoad(cfg, old(cache), ref, l, Stream(View(), ref));
      }
    }
  }

  /** What a call applies to the streams on which its load is the full replay. */
  lemma {:induction false} LoadedApplies<S, E>(d: Decider<S, E>, streams: map<string, seq<E>>, ref: string,
                                              decide: Decide<S, E>, state: S, version: nat)
    requires Replayed(d, StreamOf(streams, ref)) == Loaded(state, version)
    ensures var call, decision := Call(0, ref, decide), decide(state, version);
            && (Applies(d, streams, call) <==> decision.Some? && decision.value != [])
            && (decision.Some? ==> SerialStep(d, streams, call) == Appended(streams, ref, decision.value))
  {
  }
}
