/**
 One `ExecuteRef` call that nothing interrupts (decider/decider.go, load.go, snapshot_load.go):
 what it leaves behind, told by the full replay of its stream alone, and the proof that the
 steps of the concurrent system, taken one after the other, leave exactly that.
 */
module DeciderAlone {
  import opened Basics
  import opened Deciders
  import opened DeciderSystem

  /** Which accesses of one call fail, and whether a taken snapshot is due. */
  datatype Faults = Faults(tailRead: bool, snapshotRead: bool, storeRead: bool,
                           save: bool, acknowledge: bool, publish: bool, snapshotDue: bool)

  /** A call, and what goes wrong during it. */
  datatype Job<!S, !E, !B> = Job(cfg: Config<S, E, B>, ref: string, decide: Decide<S, E>, f: Faults)

  /** The world around a call, the place the call is at, and what it has published. */
  datatype Alone<S, E, B> = Alone(world: World<S, E, B>, pc: PC<S, E>, published: seq<E>)

  // ---- What a call leaves behind ----

  /** The cache serves a load when there is an entry, its tail can be read and the replay succeeds. */
  predicate Hit<S, E, B>(cfg: Config<S, E, B>, w: World<S, E, B>, ref: string, f: Faults) {
    cfg.cached && ref in w.cache && !f.tailRead && ref in w.streams && ReplayLoad(cfg, w, ref).Loaded?
  }

  /** A load behind the cache: a usable snapshot needs its stream, and a read that fails fails the load. */
  predicate FallBackFails<S, E, B>(cfg: Config<S, E, B>, w: World<S, E, B>, ref: string, f: Faults) {
    if !cfg.snapshotting then f.storeRead
    else if f.snapshotRead then true
    else if ref in w.snapshots && (cfg.shape == "" || w.snapshots[ref].shape in {"", cfg.shape})
    then f.tailRead || ref !in w.streams
    else f.storeRead
  }

  /** A load is the full replay or it fails. */
  function LoadAlone<S, E, B>(cfg: Config<S, E, B>, w: World<S, E, B>, ref: string, f: Faults): Load<S> {
    if !Hit(cfg, w, ref, f) && FallBackFails(cfg, w, ref, f) then Failed else ReplayLoad(cfg, w, ref)
  }

  function CacheAfterLoad<S, E, B>(cfg: Config<S, E, B>, cache: map<string, Entry<S>>, ref: string, l: Load<S>)
    : map<string, Entry<S>>
  {
    if !cfg.cached then cache
    else match l case Failed => cache - {ref} case Loaded(state, version) => cache[ref := Entry(state, version)]
  }

  /** Dropping the entry first makes no difference. */
  lemma {:induction false} CacheAfterMiss<S, E, B>(cfg: Config<S, E, B>, cache: map<string, Entry<S>>, ref: string, l: Load<S>)
    ensures CacheAfterLoad(cfg, cache - {ref}, ref, l) ==
            if cfg.cached then CacheAfterLoad(cfg, cache, ref, l) else cache - {ref}
  {
    assert (cache - {ref}) - {ref} == cache - {ref};
    assert l.Loaded? ==> (cache - {ref})[ref := Entry(l.state, l.version)] == cache[ref := Entry(l.state, l.version)];
  }

  /** What a saved call leaves in the cache: the state and version of its stream, or no entry where the
      state cannot be computed. */
  function CacheAfterSave<S, E, B>(cfg: Config<S, E, B>, cache: map<string, Entry<S>>, ref: string, stream: seq<E>)
    : map<string, Entry<S>>
  {
    CacheAfterLoad(cfg, cache, ref, Replayed(cfg.decider, stream))
  }

  /** What it leaves in the snapshots: the same, if a snapshot is due and can be encoded. */
  function SnapshotsAfterSave<S, E, B>(cfg: Config<S, E, B>, snapshots: map<string, Snapshot<B>>, ref: string,
                                       stream: seq<E>, due: bool): map<string, Snapshot<B>>
  {
    match Replayed(cfg.decider, stream)
    case Failed => snapshots
    case Loaded(state, version) =>
      if due && cfg.snapshotting && cfg.codec.encode(state).Some?
      then snapshots[ref := Snapshot(cfg.codec.encode(state).value, version, cfg.shape)] else snapshots
  }

  /** How a call ends that has events to save onto the full replay. */
  function SaveAlone<S, E, B>(cfg: Config<S, E, B>, ref: string, f: Faults, w: World<S, E, B>, events: seq<E>)
    : Alone<S, E, B>
  {
    var streams := Appended(w.streams, ref, events);
    var stream := StreamOf(streams, ref);
    if f.save then Alone(w, Ended(SaveError), [])
    else if f.acknowledge then Alone(w.(streams := streams), Ended(Unacknowledged), [])
    else if f.publish then Alone(w.(streams := streams), Ended(PublishError), [])
    else Alone(World(streams, CacheAfterSave(cfg, w.cache, ref, stream),
                     SnapshotsAfterSave(cfg, w.snapshots, ref, stream, f.snapshotDue)), Ended(Saved), events)
  }

  /** How a call ends whose load was this. */
  function DecideAlone<S, E, B>(job: Job<S, E, B>, w: World<S, E, B>, l: Load<S>): Alone<S, E, B> {
    match l
    case Failed => Alone(w, Ended(LoadError), [])
    case Loaded(state, version) =>
      match job.decide(state, version)
      case None => Alone(w, Ended(Rejected), [])
      case Some(events) => if events == [] then Alone(w, Ended(NoEvents), [])
                           else SaveAlone(job.cfg, job.ref, job.f, w, events)
  }

  function CallAlone<S, E, B>(job: Job<S, E, B>, w: World<S, E, B>): Alone<S, E, B> {
    var l := LoadAlone(job.cfg, w, job.ref, job.f);
    DecideAlone(job, w.(cache := CacheAfterLoad(job.cfg, w.cache, job.ref, l)), l)
  }

  /** A call ended like this: with this world, this result and this published since. */
  ghost predicate EndsAs<S, E, B>(x: Alone<S, E, B>, w: World<S, E, B>, r: Result, was: seq<E>, published: seq<E>) {
    x.world == w && x.pc == Ended(r) && published == was + x.published
  }

  // ---- The same by steps ----

  /** What the environment answers: every read sees the whole stream, and the cache keeps what it is given. */
  function Environment<S, E>(pc: PC<S, E>, f: Faults, seen: nat): Choice {
    match pc
    case ReadCacheTail(_, _) => Choice(!f.tailRead, seen, true, true)
    case ReadSnapshot => Choice(!f.snapshotRead, seen, true, true)
    case ReadSnapshotTail(_, _) => Choice(!f.tailRead, seen, true, true)
    case ReadStore => Choice(!f.storeRead, seen, true, true)
    case TrySave(_, _, _) => Choice(!f.save, seen, !f.acknowledge, true)
    case Publish(_, _, _) => Choice(!f.publish, seen, true, true)
    case SaveSnapshot(_, _, _) => Choice(true, seen, true, f.snapshotDue)
    case _ => Choice(true, seen, true, true)
  }

  function ChoiceAt<S, E, B>(job: Job<S, E, B>, x: Alone<S, E, B>): Choice {
    Environment(x.pc, job.f, |Stream(x.world, job.ref)|)
  }

  function AloneStep<S, E, B>(job: Job<S, E, B>, x: Alone<S, E, B>): Alone<S, E, B> {
    var th := Thread(job.ref, job.decide, x.pc);
    var c := ChoiceAt(job, x);
    Alone(NextWorld(job.cfg, x.world, th, c), NextPC(job.cfg, x.world, th, c),
          if x.pc.Publish? && c.works then x.published + x.pc.events else x.published)
  }

  function Steps<S, E, B>(job: Job<S, E, B>, x: Alone<S, E, B>, n: nat): Alone<S, E, B> {
    if n == 0 then x else AloneStep(job, Steps(job, x, n - 1))
  }

  ghost predicate Reaches<S, E, B>(job: Job<S, E, B>, x: Alone<S, E, B>, y: Alone<S, E, B>) {
    exists n: nat :: Steps(job, x, n) == y
  }

  lemma {:induction false} ReachesNow<S, E, B>(job: Job<S, E, B>, x: Alone<S, E, B>)
    ensures Reaches(job, x, x)
  {
    assert Steps(job, x, 0) == x;
  }

  lemma {:induction false} ReachesNext<S, E, B>(job: Job<S, E, B>, x: Alone<S, E, B>, y: Alone<S, E, B>)
    requires Reaches(job, x, y)
    ensures Reaches(job, x, AloneStep(job, y))
  {
    var n: nat :| Steps(job, x, n) == y;
    assert Steps(job, x, n + 1) == AloneStep(job, y);
  }

  // ---- A load, step by step ----

  /** Where a call is once it has loaded. */
  function AfterLoading<S, E, B>(job: Job<S, E, B>, w: World<S, E, B>, l: Load<S>): Alone<S, E, B> {
    Alone(w.(cache := CacheAfterLoad(job.cfg, w.cache, job.ref, l)),
          match l case Failed => Ended(LoadError) case Loaded(state, version) => Deciding(state, version), [])
  }

  /** The world as a miss leaves it. */
  function AfterMiss<S, E, B>(job: Job<S, E, B>, w: World<S, E, B>): World<S, E, B> {
    if job.cfg.cached then w.(cache := w.cache - {job.ref}) else w
  }

  /** Where a call is after reading the cache. */
  function CacheRead<S, E, B>(job: Job<S, E, B>, w: World<S, E, B>): Alone<S, E, B> {
    if Hit(job.cfg, w, job.ref, job.f) then AfterLoading(job, w, ReplayLoad(job.cfg, w, job.ref))
    else Alone(AfterMiss(job, w), FallBack(job.cfg), [])
  }

  lemma {:induction false} PutStep<S, E, B>(job: Job<S, E, B>, w: World<S, E, B>, state: S, version: nat)
    ensures AloneStep(job, Alone(w, PutEntry(state, version), [])) ==
            Alone(w.(cache := w.cache[job.ref := Entry(state, version)]), Deciding(state, version), [])
  {
  }

  lemma {:induction false} DropStep<S, E, B>(job: Job<S, E, B>, w: World<S, E, B>)
    ensures AloneStep(job, Alone(w, DropEntry, [])) == Alone(w.(cache := w.cache - {job.ref}), FallBack(job.cfg), [])
  {
  }

  /** An entry that is up to date is used as it is, and one that is not is brought up to date. */
  lemma {:induction false} TailStep<S, E, B>(job: Job<S, E, B>, w: World<S, E, B>, entry: Entry<S>)
    requires Sound(job.cfg, w) && job.cfg.cached && job.ref in w.cache && w.cache[job.ref] == entry
    ensures AloneStep(job, Alone(w, ReadCacheTail(entry.state, entry.version), [])) ==
            Alone(w, if !Hit(job.cfg, w, job.ref, job.f) then DropEntry
                     else if entry.version == |Stream(w, job.ref)| then Deciding(entry.state, entry.version)
                     else var l := ReplayLoad(job.cfg, w, job.ref); PutEntry(l.state, l.version), [])
  {
    LoadPathsAgree(job.cfg, w, job.ref);
  }

  lemma {:induction false} ReadsTheTail<S, E, B>(job: Job<S, E, B>, x: Alone<S, E, B>, w: World<S, E, B>, entry: Entry<S>)
    requires Sound(job.cfg, w) && job.cfg.cached && job.ref in w.cache && w.cache[job.ref] == entry
    requires Reaches(job, x, Alone(w, ReadCacheTail(entry.state, entry.version), []))
    ensures Reaches(job, x, CacheRead(job, w))
  {
    ReachesNext(job, x, Alone(w, ReadCacheTail(entry.state, entry.version), []));
    TailStep(job, w, entry);
    var l := ReplayLoad(job.cfg, w, job.ref);
    if !Hit(job.cfg, w, job.ref, job.f) {
      ReachesNext(job, x, Alone(w, DropEntry, []));
      DropStep(job, w);
    } else if entry.version == |Stream(w, job.ref)| {
      CurrentEntry(job, w, entry);
    } else {
      ReachesNext(job, x, Alone(w, PutEntry(l.state, l.version), []));
      PutStep(job, w, l.state, l.version);
    }
  }

  lemma {:induction false} CurrentEntry<S, E, B>(job: Job<S, E, B>, w: World<S, E, B>, entry: Entry<S>)
    requires Sound(job.cfg, w) && job.ref in w.cache && w.cache[job.ref] == entry
    requires entry.version == |Stream(w, job.ref)|
    ensures ReplayLoad(job.cfg, w, job.ref) == Loaded(entry.state, entry.version)
    ensures w.cache[job.ref := entry] == w.cache
  {
    var stream := Stream(w, job.ref);
    assert stream[..|stream|] == stream;
  }

  lemma {:induction false} ReadsTheCache<S, E, B>(job: Job<S, E, B>, x: Alone<S, E, B>, w: World<S, E, B>)
    requires Sound(job.cfg, w) && Reaches(job, x, Alone(w, ReadCache, []))
    ensures Reaches(job, x, CacheRead(job, w))
  {
    ReachesNext(job, x, Alone(w, ReadCache, []));
    if job.cfg.cached && job.ref in w.cache {
      ReadsTheTail(job, x, w, w.cache[job.ref]);
    } else {
      assert job.cfg.cached ==> w.cache - {job.ref} == w.cache;
    }
  }

  /** What is loaded behind the cache. */
  function BehindCache<S, E, B>(job: Job<S, E, B>, w: World<S, E, B>): Load<S> {
    if FallBackFails(job.cfg, w, job.ref, job.f) then Failed else ReplayLoad(job.cfg, w, job.ref)
  }

  lemma {:induction false} ReadsTheStore<S, E, B>(job: Job<S, E, B>, x: Alone<S, E, B>, w: World<S, E, B>)
    requires Reaches(job, x, Alone(w, ReadStore, []))
    ensures var l := if job.f.storeRead then Failed else ReplayLoad(job.cfg, w, job.ref);
            Reaches(job, x, Alone(w, AfterLoad(job.cfg, l), []))
  {
    var stream := Stream(w, job.ref);
    assert stream[..|stream|] == stream;
    ReachesNext(job, x, Alone(w, ReadStore, []));
  }

  lemma {:induction false} ReadsTheSnapshot<S, E, B>(job: Job<S, E, B>, x: Alone<S, E, B>, w: World<S, E, B>)
    requires Sound(job.cfg, w) && job.cfg.snapshotting && Reaches(job, x, Alone(w, ReadSnapshot, []))
    ensures Reaches(job, x, Alone(w, AfterLoad(job.cfg, BehindCache(job, w)), []))
  {
    var cfg, ref := job.cfg, job.ref;
    LoadPathsAgree(cfg, w, ref);
    var y := Alone(w, ReadSnapshot, []);
    ReachesNext(job, x, y);
    if !job.f.snapshotRead {
      if ref !in w.snapshots || ShapeMismatch(cfg, w.snapshots[ref]) {
        ReadsTheStore(job, x, w);
      } else {
        assert SnapshotOk(cfg, Stream(w, ref), w.snapshots[ref]);
        ReachesNext(job, x, AloneStep(job, y));
      }
    }
  }

  lemma {:induction false} FallsBack<S, E, B>(job: Job<S, E, B>, x: Alone<S, E, B>, w: World<S, E, B>)
    requires Sound(job.cfg, w) && (job.cfg.cached ==> job.ref !in w.cache)
    requires Reaches(job, x, Alone(w, FallBack(job.cfg), []))
    ensures Reaches(job, x, AfterLoading(job, w, BehindCache(job, w)))
  {
    var l := BehindCache(job, w);
    if job.cfg.snapshotting {
      ReadsTheSnapshot(job, x, w);
    } else {
      ReadsTheStore(job, x, w);
    }
    if l.Failed? {
      assert job.cfg.cached ==> w.cache - {job.ref} == w.cache;
    } else if job.cfg.cached {
      ReachesNext(job, x, Alone(w, PutEntry(l.state, l.version), []));
      PutStep(job, w, l.state, l.version);
    }
  }

  lemma {:induction false} LoadsAfterAMiss<S, E, B>(job: Job<S, E, B>, w: World<S, E, B>)
    requires !Hit(job.cfg, w, job.ref, job.f)
    ensures AfterLoading(job, AfterMiss(job, w), BehindCache(job, AfterMiss(job, w))) ==
            AfterLoading(job, w, LoadAlone(job.cfg, w, job.ref, job.f))
  {
    CacheAfterMiss(job.cfg, w.cache, job.ref, LoadAlone(job.cfg, w, job.ref, job.f));
  }

  lemma {:induction false} LoadsAlone<S, E, B>(job: Job<S, E, B>, w: World<S, E, B>)
    requires Sound(job.cfg, w)
    ensures Reaches(job, Alone(w, ReadCache, []), AfterLoading(job, w, LoadAlone(job.cfg, w, job.ref, job.f)))
  {
    var x := Alone(w, ReadCache, []);
    ReachesNow(job, x);
    ReadsTheCache(job, x, w);
    if !Hit(job.cfg, w, job.ref, job.f) {
      FallsBack(job, x, AfterMiss(job, w));
      LoadsAfterAMiss(job, w);
    }
  }

  // ---- Deciding and saving, step by step ----

  lemma {:induction false} ReplayIsGrounded<S, E>(d: Decider<S, E>, stream: seq<E>)
    ensures var l := Replayed(d, stream); l.Loaded? ==> Grounded(d, stream, l.state, l.version)
  {
    assert stream[..|stream|] == stream;
  }

  lemma {:induction false} AppendFollows<S, E>(d: Decider<S, E>, stream: seq<E>, state: S, version: nat, events: seq<E>)
    requires Grounded(d, stream, state, version) && version == |stream|
    ensures Follows(d, stream + events, state, version, events)
  {
    GroundedGrows(d, stream, events, state, version);
    assert (stream + events)[version..] == events;
  }

  lemma {:induction false} FollowsToTheEnd<S, E>(d: Decider<S, E>, stream: seq<E>, state: S, version: nat, events: seq<E>)
    requires Follows(d, stream, state, version, events) && |stream| == version + |events|
    ensures Fold(d, d.initial, stream) == Fold(d, state, events)
  {
    GroundedAdvances(d, stream, state, version, |stream|);
    assert stream[version..|stream|] == events && stream[..|stream|] == stream;
  }

  /** The events of a call onto the full replay fold to the replay of what it saved. */
  lemma {:induction false} SavedReplays<S, E>(d: Decider<S, E>, stream: seq<E>, state: S, version: nat, events: seq<E>)
    requires Replayed(d, stream) == Loaded(state, version)
    ensures Replayed(d, stream + events) == Advanced(d, state, version, events)
  {
    ReplayIsGrounded(d, stream);
    AppendFollows(d, stream, state, version, events);
    FollowsToTheEnd(d, stream + events, state, version, events);
  }

  lemma {:induction false} StoresTheSnapshot<S, E, B>(job: Job<S, E, B>, w: World<S, E, B>, state: S, version: nat,
                                                     events: seq<E>)
    requires Replayed(job.cfg.decider, Stream(w, job.ref)) == Advanced(job.cfg.decider, state, version, events)
    ensures var stream := Stream(w, job.ref);
            AloneStep(job, Alone(w, SaveSnapshot(state, version, events), events)) ==
            Alone(w.(snapshots := SnapshotsAfterSave(job.cfg, w.snapshots, job.ref, stream, job.f.snapshotDue)),
                  if job.cfg.cached then UpdateCache(state, version, events) else Ended(Saved), events)
  {
  }

  lemma {:induction false} StoresTheState<S, E, B>(job: Job<S, E, B>, w: World<S, E, B>, state: S, version: nat,
                                                  events: seq<E>)
    requires Replayed(job.cfg.decider, Stream(w, job.ref)) == Advanced(job.cfg.decider, state, version, events)
    requires job.cfg.cached
    ensures AloneStep(job, Alone(w, UpdateCache(state, version, events), events)) ==
            Alone(w.(cache := CacheAfterSave(job.cfg, w.cache, job.ref, Stream(w, job.ref))), Ended(Saved), events)
  {
  }

  /** After an acknowledged save and a publication. */
  lemma {:induction false} Stores<S, E, B>(job: Job<S, E, B>, x: Alone<S, E, B>, w: World<S, E, B>, state: S, version: nat,
                                          events: seq<E>)
    requires Reaches(job, x, Alone(w, SaveSnapshot(state, version, events), events))
    requires Replayed(job.cfg.decider, Stream(w, job.ref)) == Advanced(job.cfg.decider, state, version, events)
    ensures var stream := Stream(w, job.ref);
            Reaches(job, x, Alone(World(w.streams, CacheAfterSave(job.cfg, w.cache, job.ref, stream),
                                        SnapshotsAfterSave(job.cfg, w.snapshots, job.ref, stream, job.f.snapshotDue)),
                                  Ended(Saved), events))
  {
    ReachesNext(job, x, Alone(w, SaveSnapshot(state, version, events), events));
    StoresTheSnapshot(job, w, state, version, events);
    if job.cfg.cached {
      var w' := w.(snapshots := SnapshotsAfterSave(job.cfg, w.snapshots, job.ref, Stream(w, job.ref), job.f.snapshotDue));
      ReachesNext(job, x, Alone(w', UpdateCache(state, version, events), events));
      StoresTheState(job, w', state, version, events);
    }
  }

  lemma {:induction false} SavesAlone<S, E, B>(job: Job<S, E, B>, x: Alone<S, E, B>, w: World<S, E, B>, state: S,
                                              version: nat, events: seq<E>)
    requires ReplayLoad(job.cfg, w, job.ref) == Loaded(state, version) && events != []
    requires Reaches(job, x, Alone(w, TrySave(state, version, events), []))
    ensures Reaches(job, x, SaveAlone(job.cfg, job.ref, job.f, w, events))
  {
    var y := Alone(w, TrySave(state, version, events), []);
    ReachesNext(job, x, y);
    if !job.f.save && !job.f.acknowledge {
      var y1 := AloneStep(job, y);
      ReachesNext(job, x, y1);
      if !job.f.publish {
        SavedReplays(job.cfg.decider, Stream(w, job.ref), state, version, events);
        Stores(job, x, y1.world, state, version, events);
      }
    }
  }

  lemma {:induction false} DecidesAlone<S, E, B>(job: Job<S, E, B>, x: Alone<S, E, B>, w: World<S, E, B>, l: Load<S>)
    requires l.Loaded? && ReplayLoad(job.cfg, w, job.ref) == l
    requires Reaches(job, x, Alone(w, Deciding(l.state, l.version), []))
    ensures Reaches(job, x, DecideAlone(job, w, l))
  {
    ReachesNext(job, x, Alone(w, Deciding(l.state, l.version), []));
    var decision := job.decide(l.state, l.version);
    if decision.Some? && decision.value != [] {
      SavesAlone(job, x, w, l.state, l.version, decision.value);
    }
  }

  /** A call that nothing interrupts ends, and leaves the world, the result and the publication that the full
      replay of its stream determines. */
  lemma {:induction false} UninterruptedStepsAreTheCall<S, E, B>(job: Job<S, E, B>, w: World<S, E, B>)
    requires Sound(job.cfg, w)
    ensures Reaches(job, Alone(w, ReadCache, []), CallAlone(job, w))
  {
    LoadsAlone(job, w);
    var l := LoadAlone(job.cfg, w, job.ref, job.f);
    if l.Loaded? {
      DecidesAlone(job, Alone(w, ReadCache, []), AfterLoading(job, w, l).world, l);
    }
  }

  // ---- In the concurrent system ----

  /** The events handed to the publisher, in order. */
  function AllPublished<E>(published: seq<Publication<E>>): seq<E> {
    if published == [] then []
    else AllPublished(published[..|published| - 1]) + published[|published| - 1].events
  }

  lemma {:induction false} RunOneMore<S, E, B>(cfg: Config<S, E, B>, s: Sys<S, E, B>, steps: seq<Step<S, E>>,
                                              step: Step<S, E>)
    requires Runs(cfg, s, steps) && Enabled(After(cfg, s, steps), step)
    ensures Runs(cfg, s, steps + [step]) && After(cfg, s, steps + [step]) == Next(cfg, After(cfg, s, steps), step)
    decreases |steps|
  {
    if steps == [] {
      assert steps + [step] == [step] && [step][1..] == [];
    } else {
      assert (steps + [step])[1..] == steps[1..] + [step];
      RunOneMore(cfg, Next(cfg, s, steps[0]), steps[1..], step);
    }
  }

  /** The system is where the call alone would be. */
  ghost predicate Mirrors<S, E, B>(job: Job<S, E, B>, s: Sys<S, E, B>, t: Sys<S, E, B>, id: nat, x: Alone<S, E, B>) {
    && t.world == x.world && id in t.threads && t.threads == s.threads[id := Thread(job.ref, job.decide, x.pc)]
    && AllPublished(t.published) == AllPublished(s.published) + x.published
  }

  lemma {:induction false} MirrorsNext<S, E, B>(job: Job<S, E, B>, s: Sys<S, E, B>, t: Sys<S, E, B>, id: nat,
                                               x: Alone<S, E, B>)
    requires Mirrors(job, s, t, id, x)
    ensures Mirrors(job, s, Next(job.cfg, t, Advance(id, ChoiceAt(job, x))), id, AloneStep(job, x))
  {
    var t' := Next(job.cfg, t, Advance(id, ChoiceAt(job, x)));
    if |t'.published| > |t.published| {
      assert t'.published[..|t'.published| - 1] == t.published;
    }
  }

  lemma {:induction false} AloneInTheSystem<S, E, B>(job: Job<S, E, B>, s: Sys<S, E, B>, id: nat, n: nat)
    returns (steps: seq<Step<S, E>>)
    requires id in s.threads && s.threads[id] == Thread(job.ref, job.decide, ReadCache)
    ensures Runs(job.cfg, s, steps) && forall i :: 0 <= i < |steps| ==> steps[i].Advance? && steps[i].id == id
    ensures Mirrors(job, s, After(job.cfg, s, steps), id, Steps(job, Alone(s.world, ReadCache, []), n))
    decreases n
  {
    var x := Alone(s.world, ReadCache, []);
    if n == 0 {
      steps := [];
      assert AllPublished(s.published) + [] == AllPublished(s.published);
      assert s.threads[id := s.threads[id]] == s.threads;
    } else {
      var before := AloneInTheSystem(job, s, id, n - 1);
      var step := Advance(id, ChoiceAt(job, Steps(job, x, n - 1)));
      RunOneMore(job.cfg, s, before, step);
      MirrorsNext(job, s, After(job.cfg, s, before), id, Steps(job, x, n - 1));
      steps := before + [step];
    }
  }

  /** Whatever ran before it, a call whose steps nothing interrupts ends as the full replay of its stream
      determines: the result, the streams, the cache, the snapshots and what is published. */
  lemma {:induction false} EveryCallAloneIsTheCall<S(!new), E, B>(job: Job<S, E, B>, s: Sys<S, E, B>,
                                                                 steps: seq<Step<S, E>>, id: nat)
    returns (more: seq<Step<S, E>>)
    requires Lawful(job.cfg) && Initial(job.cfg, s) && Runs(job.cfg, s, steps)
    requires var t := After(job.cfg, s, steps);
             id in t.threads && t.threads[id] == Thread(job.ref, job.decide, ReadCache)
    ensures var t := After(job.cfg, s, steps);
            && Runs(job.cfg, t, more) && (forall i :: 0 <= i < |more| ==> more[i].Advance? && more[i].id == id)
            && Mirrors(job, t, After(job.cfg, t, more), id, CallAlone(job, t.world))
  {
    var t := After(job.cfg, s, steps);
    RunIsSound(job.cfg, s, steps);
    UninterruptedStepsAreTheCall(job, t.world);
    var n: nat :| Steps(job, Alone(t.world, ReadCache, []), n) == CallAlone(job, t.world);
    more := AloneInTheSystem(job, t, id, n);
  }

  lemma {:induction false} RunIsSound<S(!new), E, B>(cfg: Config<S, E, B>, s: Sys<S, E, B>, steps: seq<Step<S, E>>)
    requires Lawful(cfg) && Initial(cfg, s) && Runs(cfg, s, steps)
    ensures Sound(cfg, After(cfg, s, steps).world)
  {
    RunKeepsInv(cfg, s.world.streams, s, steps);
  }
}
