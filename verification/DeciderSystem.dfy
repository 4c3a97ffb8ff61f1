/**
 Concurrent `ExecuteRef` calls over shared streams, a lossy cache and a snapshot store
 (decider/decider.go, load.go). One step is one access to the store, the cache, the snapshot
 store or the publisher; calls interleave freely with each other, with evictions, with
 snapshot deletion and with unchecked appends by other writers.
 */
module DeciderSystem {
  import opened Basics
  import opened Deciders

  type Decide<!S, !E> = (S, nat) -> Option<seq<E>>

  datatype Result = Saved | NoEvents | Rejected | LoadError | SaveError | Unacknowledged | PublishError

  datatype PC<S, E> =
    | ReadCache
    | ReadCacheTail(state: S, version: nat)
    | DropEntry
    | ReadSnapshot
    | ReadSnapshotTail(state: S, version: nat)
    | ReadStore
    | PutEntry(state: S, version: nat)
    | Deciding(state: S, version: nat)
    | TrySave(state: S, version: nat, events: seq<E>)
    | Publish(state: S, version: nat, events: seq<E>)
    | SaveSnapshot(state: S, version: nat, events: seq<E>)
    | UpdateCache(state: S, version: nat, events: seq<E>)
    | Ended(result: Result)

  datatype Thread<!S, !E> = Thread(ref: string, decide: Decide<S, E>, pc: PC<S, E>)

  datatype Commit<!S, !E> =
    | Call(id: nat, ref: string, decide: Decide<S, E>)
    | Import(ref: string, events: seq<E>)

  /** What a call handed to the publisher, and the publisher accepted. */
  datatype Publication<+E> = Publication(id: nat, ref: string, events: seq<E>)

  /** `log` lists what reached the streams, in commit order; `published` what reached the publisher. */
  datatype Sys<!S, !E, !B> = Sys(world: World<S, E, B>, threads: map<nat, Thread<S, E>>, log: seq<Commit<S, E>>,
                                 published: seq<Publication<E>>)

  /** The environment's choices at one step: whether the operation works, how much of the stream
      a read sees, whether a save is acknowledged, and whether a best-effort store keeps the value. */
  datatype Choice = Choice(works: bool, seen: nat, acknowledged: bool, keeps: bool)

  function FallBack<S, E, B>(cfg: Config<S, E, B>): PC<S, E> {
    if cfg.snapshotting then ReadSnapshot else ReadStore
  }

  function AfterLoad<S, E, B>(cfg: Config<S, E, B>, l: Load<S>): PC<S, E> {
    match l
    case Failed => Ended(LoadError)
    case Loaded(state, version) => if cfg.cached then PutEntry(state, version) else Deciding(state, version)
  }

  function Seen<E>(stream: seq<E>, c: Choice): (n: nat)
    ensures n <= |stream|
  {
    if c.seen <= |stream| then c.seen else |stream|
  }

  /** The next pc of a call; only the steps below also change the world. */
  function NextPC<S, E, B>(cfg: Config<S, E, B>, w: World<S, E, B>, th: Thread<S, E>, c: Choice): PC<S, E> {
    var stream := Stream(w, th.ref);
    match th.pc
    case ReadCache =>
      if cfg.cached && th.ref in w.cache then ReadCacheTail(w.cache[th.ref].state, w.cache[th.ref].version)
      else FallBack(cfg)
    case ReadCacheTail(state, version) =>
      if !c.works || th.ref !in w.streams then DropEntry
      else
        var tail := TailFrom(stream, version, Seen(stream, c));
        if tail == [] then Deciding(state, version)
        else (match Advanced(cfg.decider, state, version, tail)
              case Failed => DropEntry
              case Loaded(state', version') => PutEntry(state', version'))
    case DropEntry => FallBack(cfg)
    case ReadSnapshot =>
      if !c.works then Ended(LoadError)
      else if th.ref !in w.snapshots || ShapeMismatch(cfg, w.snapshots[th.ref]) then ReadStore
      else (match cfg.codec.decode(w.snapshots[th.ref].bytes)
            case None => Ended(LoadError)
            case Some(state) => ReadSnapshotTail(state, w.snapshots[th.ref].version))
    case ReadSnapshotTail(state, version) =>
      if !c.works || th.ref !in w.streams then Ended(LoadError)
      else AfterLoad(cfg, Advanced(cfg.decider, state, version, TailFrom(stream, version, Seen(stream, c))))
    case ReadStore =>
      if !c.works then Ended(LoadError)
      else AfterLoad(cfg, Replayed(cfg.decider, stream[..Seen(stream, c)]))
    case PutEntry(state, version) => Deciding(state, version)
    case Deciding(state, version) =>
      (match th.decide(state, version)
       case None => Ended(Rejected)
       case Some(events) => if events == [] then Ended(NoEvents) else TrySave(state, version, events))
    case TrySave(state, version, events) =>
      if !Accepted(w, th, c) then Ended(SaveError)
      else if c.acknowledged then Publish(state, version, events)
      else Ended(Unacknowledged)
    case Publish(state, version, events) =>
      if c.works then SaveSnapshot(state, version, events) else Ended(PublishError)
    case SaveSnapshot(state, version, events) =>
      if cfg.cached then UpdateCache(state, version, events) else Ended(Saved)
    case UpdateCache(state, version, events) => Ended(Saved)
    case Ended(_) => th.pc
  }

  /** `Save` appends if and only if the expected version is the stream's length. */
  predicate Accepted<S, E, B>(w: World<S, E, B>, th: Thread<S, E>, c: Choice) {
    th.pc.TrySave? && c.works && |Stream(w, th.ref)| == th.pc.version
  }

  function NextWorld<S, E, B>(cfg: Config<S, E, B>, w: World<S, E, B>, th: Thread<S, E>, c: Choice): World<S, E, B> {
    match th.pc
    case DropEntry => w.(cache := w.cache - {th.ref})
    case PutEntry(state, version) => if c.keeps then w.(cache := w.cache[th.ref := Entry(state, version)]) else w
    case TrySave(state, version, events) =>
      if Accepted(w, th, c) then w.(streams := Appended(w.streams, th.ref, events)) else w
    case SaveSnapshot(state, version, events) =>
      (match Fold(cfg.decider, state, events)
       case None => w
       case Some(final) =>
         match cfg.codec.encode(final)
         case None => w
         case Some(bytes) =>
           if cfg.snapshotting && c.keeps
           then w.(snapshots := w.snapshots[th.ref := Snapshot(bytes, version + |events|, cfg.shape)]) else w)
    case UpdateCache(state, version, events) =>
      (match Fold(cfg.decider, state, events)
       case None => w.(cache := w.cache - {th.ref})
       case Some(final) =>
         if c.keeps then w.(cache := w.cache[th.ref := Entry(final, version + |events|)]) else w)
    case _ => w
  }

  datatype Step<!S, !E> =
    | Start(id: nat, ref: string, decide: Decide<S, E>)
    | Advance(id: nat, c: Choice)
    | EvictEntry(ref: string)
    | DeleteSnapshot(ref: string)
    | AppendBatch(ref: string, events: seq<E>)

  ghost predicate Enabled<S, E, B>(s: Sys<S, E, B>, step: Step<S, E>) {
    match step
    case Start(id, _, _) => id !in s.threads
    case Advance(id, _) => id in s.threads
    case _ => true
  }

  ghost function Next<S, E, B>(cfg: Config<S, E, B>, s: Sys<S, E, B>, step: Step<S, E>): Sys<S, E, B>
    requires Enabled(s, step)
  {
    match step
    case Start(id, ref, decide) => s.(threads := s.threads[id := Thread(ref, decide, ReadCache)])
    case Advance(id, c) =>
      var th := s.threads[id];
      Sys(NextWorld(cfg, s.world, th, c),
          s.threads[id := th.(pc := NextPC(cfg, s.world, th, c))],
          if Accepted(s.world, th, c) then s.log + [Call(id, th.ref, th.decide)] else s.log,
          if th.pc.Publish? && c.works then s.published + [Publication(id, th.ref, th.pc.events)] else s.published)
    case EvictEntry(ref) => s.(world := s.world.(cache := s.world.cache - {ref}))
    case DeleteSnapshot(ref) => s.(world := s.world.(snapshots := s.world.snapshots - {ref}))
    case AppendBatch(ref, events) =>
      s.(world := s.world.(streams := Appended(s.world.streams, ref, events)),
         log := s.log + [Import(ref, events)])
  }

  // ---- The serial reference ----

  /** One commit executed alone: a call replays the whole stream, decides on it and appends. */
  function SerialStep<S, E>(d: Decider<S, E>, streams: map<string, seq<E>>, c: Commit<S, E>): map<string, seq<E>> {
    var stream := StreamOf(streams, c.ref);
    match c
    case Import(ref, events) => Appended(streams, ref, events)
    case Call(_, ref, decide) =>
      match Fold(d, d.initial, stream)
      case None => streams
      case Some(state) =>
        match decide(state, |stream|)
        case None => streams
        case Some(events) => Appended(streams, ref, events)
  }

  function Serial<S, E>(d: Decider<S, E>, base: map<string, seq<E>>, log: seq<Commit<S, E>>): map<string, seq<E>>
    decreases |log|
  {
    if log == [] then base else SerialStep(d, Serial(d, base, log[..|log| - 1]), log[|log| - 1])
  }

  /** The call, run alone on these streams, replays, decides and has events to save. */
  ghost predicate Applies<S, E>(d: Decider<S, E>, streams: map<string, seq<E>>, c: Commit<S, E>)
    requires c.Call?
  {
    var stream := StreamOf(streams, c.ref);
    && Fold(d, d.initial, stream).Some?
    && c.decide(Fold(d, d.initial, stream).value, |stream|).Some?
    && c.decide(Fold(d, d.initial, stream).value, |stream|).value != []
  }

  /** Every committed call applies at its place in commit order. */
  ghost predicate LogApplies<S, E>(d: Decider<S, E>, base: map<string, seq<E>>, log: seq<Commit<S, E>>) {
    forall i :: 0 <= i < |log| && log[i].Call? ==> Applies(d, Serial(d, base, log[..i]), log[i])
  }

  lemma {:induction false} SerialAppend<S, E>(d: Decider<S, E>, base: map<string, seq<E>>, log: seq<Commit<S, E>>,
                                              c: Commit<S, E>)
    ensures Serial(d, base, log + [c]) == SerialStep(d, Serial(d, base, log), c)
    ensures LogApplies(d, base, log) && (c.Call? ==> Applies(d, Serial(d, base, log), c)) ==>
              LogApplies(d, base, log + [c])
  {
    var log' := log + [c];
    assert log'[..|log|] == log;
    forall i | 0 <= i < |log| ensures log'[..i] == log[..i] {
    }
  }

  function CallsOf<S, E>(log: seq<Commit<S, E>>, id: nat): nat {
    if log == [] then 0
    else CallsOf(log[..|log| - 1], id) +
         (if log[|log| - 1].Call? && log[|log| - 1].id == id then 1 else 0)
  }

  // ---- What every step keeps ----

  predicate HasSaved<S, E>(pc: PC<S, E>) {
    || pc.Publish? || pc.SaveSnapshot? || pc.UpdateCache?
    || (pc.Ended? && (pc.result.Saved? || pc.result.PublishError? || pc.result.Unacknowledged?))
  }

  /** A call only ever holds a grounded state, and after its save its events follow that version. */
  ghost predicate PcOk<S, E>(d: Decider<S, E>, stream: seq<E>, decide: Decide<S, E>, pc: PC<S, E>) {
    match pc
    case ReadCacheTail(state, version) => Grounded(d, stream, state, version)
    case ReadSnapshotTail(state, version) => Grounded(d, stream, state, version)
    case PutEntry(state, version) => Grounded(d, stream, state, version)
    case Deciding(state, version) => Grounded(d, stream, state, version)
    case TrySave(state, version, events) =>
      Grounded(d, stream, state, version) && decide(state, version) == Some(events) && events != []
    case Publish(state, version, events) => Follows(d, stream, state, version, events)
    case SaveSnapshot(state, version, events) => Follows(d, stream, state, version, events)
    case UpdateCache(state, version, events) => Follows(d, stream, state, version, events)
    case _ => true
  }

  ghost predicate Follows<S, E>(d: Decider<S, E>, stream: seq<E>, state: S, version: nat, events: seq<E>) {
    Grounded(d, stream, state, version) && events <= stream[version..]
  }

  lemma {:induction false} FollowsFolds<S, E>(d: Decider<S, E>, stream: seq<E>, state: S, version: nat, events: seq<E>)
    requires Follows(d, stream, state, version, events)
    ensures Fold(d, state, events).Some? ==>
              Grounded(d, stream, Fold(d, state, events).value, version + |events|)
  {
    var upTo := version + |events|;
    assert stream[version..upTo] == events;
    GroundedAdvances(d, stream, state, version, upTo);
  }

  lemma {:induction false} PcGrows<S, E>(d: Decider<S, E>, stream: seq<E>, more: seq<E>, decide: Decide<S, E>, pc: PC<S, E>)
    requires PcOk(d, stream, decide, pc)
    ensures PcOk(d, stream + more, decide, pc)
  {
    if pc.ReadCacheTail? || pc.ReadSnapshotTail? || pc.PutEntry? || pc.Deciding? || pc.TrySave? ||
       pc.Publish? || pc.SaveSnapshot? || pc.UpdateCache?
    {
      GroundedGrows(d, stream, more, pc.state, pc.version);
      assert (stream + more)[pc.version..] == stream[pc.version..] + more;
    }
  }

  lemma {:induction false} SoundGrows<S, E, B>(cfg: Config<S, E, B>, w: World<S, E, B>, ref: string, more: seq<E>)
    requires Sound(cfg, w)
    ensures Sound(cfg, w.(streams := Appended(w.streams, ref, more)))
  {
    var w' := w.(streams := Appended(w.streams, ref, more));
    forall r | r in w.cache
      ensures Grounded(cfg.decider, Stream(w', r), w.cache[r].state, w.cache[r].version)
    {
      AppendedStream(w.streams, ref, more, r);
      GroundedGrows(cfg.decider, Stream(w, r), more, w.cache[r].state, w.cache[r].version);
    }
    forall r | r in w.snapshots ensures SnapshotOk(cfg, Stream(w', r), w.snapshots[r]) {
      AppendedStream(w.streams, ref, more, r);
      var snap := w.snapshots[r];
      assert SnapshotOk(cfg, Stream(w, r), snap);
      if !ShapeMismatch(cfg, snap) {
        GroundedGrows(cfg.decider, Stream(w, r), more, cfg.codec.decode(snap.bytes).value, snap.version);
      }
    }
  }

  /** A read of any prefix, folded onto a grounded state, is grounded. */
  lemma {:induction false} ReadIsGrounded<S, E>(d: Decider<S, E>, stream: seq<E>, state: S, version: nat, seen: nat)
    requires Grounded(d, stream, state, version) && seen <= |stream|
    ensures var l := Advanced(d, state, version, TailFrom(stream, version, seen));
            l.Loaded? ==> Grounded(d, stream, l.state, l.version)
  {
    if version < seen {
      GroundedAdvances(d, stream, state, version, seen);
    }
  }

  lemma {:induction false} LoadingPcOk<S, E, B>(cfg: Config<S, E, B>, w: World<S, E, B>, th: Thread<S, E>, c: Choice)
    requires Sound(cfg, w) && PcOk(cfg.decider, Stream(w, th.ref), th.decide, th.pc)
    requires !th.pc.TrySave?
    ensures PcOk(cfg.decider, Stream(w, th.ref), th.decide, NextPC(cfg, w, th, c))
  {
    var stream := Stream(w, th.ref);
    match th.pc
    case ReadCacheTail(state, version) =>
      ReadIsGrounded(cfg.decider, stream, state, version, Seen(stream, c));
    case ReadSnapshotTail(state, version) =>
      ReadIsGrounded(cfg.decider, stream, state, version, Seen(stream, c));
    case ReadSnapshot =>
      assert th.ref in w.snapshots ==> SnapshotOk(cfg, stream, w.snapshots[th.ref]);
    case _ =>
  }

  lemma {:induction false} NextPcOk<S, E, B>(cfg: Config<S, E, B>, w: World<S, E, B>, th: Thread<S, E>, c: Choice)
    requires Sound(cfg, w) && PcOk(cfg.decider, Stream(w, th.ref), th.decide, th.pc)
    ensures PcOk(cfg.decider, Stream(NextWorld(cfg, w, th, c), th.ref), th.decide, NextPC(cfg, w, th, c))
  {
    if th.pc.TrySave? {
      var stream := Stream(w, th.ref);
      GroundedGrows(cfg.decider, stream, th.pc.events, th.pc.state, th.pc.version);
      if Accepted(w, th, c) {
        assert (stream + th.pc.events)[th.pc.version..] == th.pc.events;
      }
    } else {
      LoadingPcOk(cfg, w, th, c);
    }
  }

  lemma {:induction false} PutSound<S, E, B>(cfg: Config<S, E, B>, w: World<S, E, B>, ref: string, state: S, version: nat)
    requires Sound(cfg, w) && Grounded(cfg.decider, Stream(w, ref), state, version)
    ensures Sound(cfg, w.(cache := w.cache[ref := Entry(state, version)]))
  {
  }

  lemma {:induction false} SnapshotSound<S, E, B>(cfg: Config<S, E, B>, w: World<S, E, B>, ref: string, snap: Snapshot<B>)
    requires Sound(cfg, w) && SnapshotOk(cfg, Stream(w, ref), snap)
    ensures Sound(cfg, w.(snapshots := w.snapshots[ref := snap]))
  {
  }

  lemma {:induction false} SaveSnapshotSound<S(!new), E, B>(cfg: Config<S, E, B>, w: World<S, E, B>, th: Thread<S, E>,
                                                            c: Choice)
    requires Lawful(cfg) && Sound(cfg, w) && PcOk(cfg.decider, Stream(w, th.ref), th.decide, th.pc)
    requires th.pc.SaveSnapshot?
    ensures Sound(cfg, NextWorld(cfg, w, th, c))
  {
    var SaveSnapshot(state, version, events) := th.pc;
    FollowsFolds(cfg.decider, Stream(w, th.ref), state, version, events);
    var final := Fold(cfg.decider, state, events);
    if final.Some? && cfg.codec.encode(final.value).Some? {
      var snap := Snapshot(cfg.codec.encode(final.value).value, version + |events|, cfg.shape);
      SnapshotSound(cfg, w, th.ref, snap);
    }
  }

  lemma {:induction false} UpdateCacheSound<S, E, B>(cfg: Config<S, E, B>, w: World<S, E, B>, th: Thread<S, E>, c: Choice)
    requires Sound(cfg, w) && PcOk(cfg.decider, Stream(w, th.ref), th.decide, th.pc)
    requires th.pc.UpdateCache?
    ensures Sound(cfg, NextWorld(cfg, w, th, c))
  {
    var UpdateCache(state, version, events) := th.pc;
    FollowsFolds(cfg.decider, Stream(w, th.ref), state, version, events);
    var final := Fold(cfg.decider, state, events);
    if final.Some? {
      PutSound(cfg, w, th.ref, final.value, version + |events|);
    }
  }

  lemma {:induction false} NextWorldSound<S(!new), E, B>(cfg: Config<S, E, B>, w: World<S, E, B>, th: Thread<S, E>,
                                                         c: Choice)
    requires Lawful(cfg) && Sound(cfg, w) && PcOk(cfg.decider, Stream(w, th.ref), th.decide, th.pc)
    ensures Sound(cfg, NextWorld(cfg, w, th, c))
  {
    match th.pc
    case TrySave(_, _, events) => SoundGrows(cfg, w, th.ref, events);
    case PutEntry(state, version) => PutSound(cfg, w, th.ref, state, version);
    case SaveSnapshot(_, _, _) => SaveSnapshotSound(cfg, w, th, c);
    case UpdateCache(_, _, _) => UpdateCacheSound(cfg, w, th, c);
    case _ =>
  }

  ghost predicate ThreadsOk<S, E, B>(cfg: Config<S, E, B>, s: Sys<S, E, B>) {
    forall id :: id in s.threads ==>
      PcOk(cfg.decider, Stream(s.world, s.threads[id].ref), s.threads[id].decide, s.threads[id].pc)
  }

  /** A call is in the log once if it has saved, and not at all otherwise. */
  ghost predicate LoggedOnce<S, E, B>(s: Sys<S, E, B>) {
    forall id :: CallsOf(s.log, id) == if id in s.threads && HasSaved(s.threads[id].pc) then 1 else 0
  }

  ghost predicate SerialSoFar<S, E, B>(cfg: Config<S, E, B>, base: map<string, seq<E>>, s: Sys<S, E, B>) {
    && s.world.streams == Serial(cfg.decider, base, s.log)
    && LogApplies(cfg.decider, base, s.log)
  }

  ghost predicate Inv<S, E, B>(cfg: Config<S, E, B>, base: map<string, seq<E>>, s: Sys<S, E, B>) {
    Sound(cfg, s.world) && ThreadsOk(cfg, s) && LoggedOnce(s) && SerialSoFar(cfg, base, s)
  }

  lemma {:induction false} AdvanceThreadsOk<S, E, B>(cfg: Config<S, E, B>, s: Sys<S, E, B>, id: nat, c: Choice)
    requires Sound(cfg, s.world) && ThreadsOk(cfg, s) && id in s.threads
    ensures ThreadsOk(cfg, Next(cfg, s, Advance(id, c)))
  {
    var th := s.threads[id];
    var s' := Next(cfg, s, Advance(id, c));
    NextPcOk(cfg, s.world, th, c);
    forall other | other in s.threads && other != id
      ensures PcOk(cfg.decider, Stream(s'.world, s.threads[other].ref), s.threads[other].decide, s.threads[other].pc)
    {
      var o := s.threads[other];
      if o.ref == th.ref && Accepted(s.world, th, c) {
        PcGrows(cfg.decider, Stream(s.world, o.ref), th.pc.events, o.decide, o.pc);
      }
    }
  }

  lemma {:induction false} CallsOfAppend<S, E>(log: seq<Commit<S, E>>, c: Commit<S, E>, id: nat)
    ensures CallsOf(log + [c], id) == CallsOf(log, id) + (if c.Call? && c.id == id then 1 else 0)
  {
    assert (log + [c])[..|log|] == log;
  }

  /** A call passes into its saved phase exactly in the step that appends. */
  lemma {:induction false} SavedExactlyByAppending<S, E, B>(cfg: Config<S, E, B>, w: World<S, E, B>, th: Thread<S, E>,
                                                           c: Choice)
    ensures HasSaved(NextPC(cfg, w, th, c)) <==> HasSaved(th.pc) || Accepted(w, th, c)
    ensures Accepted(w, th, c) ==> !HasSaved(th.pc)
  {
  }

  lemma {:induction false} AdvanceLoggedOnce<S, E, B>(cfg: Config<S, E, B>, s: Sys<S, E, B>, id: nat, c: Choice)
    requires LoggedOnce(s) && id in s.threads
    ensures LoggedOnce(Next(cfg, s, Advance(id, c)))
  {
    var th := s.threads[id];
    var s' := Next(cfg, s, Advance(id, c));
    SavedExactlyByAppending(cfg, s.world, th, c);
    forall i ensures CallsOf(s'.log, i) == if i in s'.threads && HasSaved(s'.threads[i].pc) then 1 else 0 {
      CallsOfAppend(s.log, Call(id, th.ref, th.decide), i);
    }
  }

  /** What an accepted save appends is what the call appends when run alone on those streams. */
  lemma {:induction false} AcceptedApplies<S, E, B>(cfg: Config<S, E, B>, w: World<S, E, B>, th: Thread<S, E>, id: nat,
                                                   c: Choice)
    requires Accepted(w, th, c) && PcOk(cfg.decider, Stream(w, th.ref), th.decide, th.pc)
    ensures var call := Call(id, th.ref, th.decide);
            && Applies(cfg.decider, w.streams, call)
            && NextWorld(cfg, w, th, c).streams == SerialStep(cfg.decider, w.streams, call)
  {
    var stream := Stream(w, th.ref);
    assert stream[..|stream|] == stream;
  }

  /** The save that appends is the serial execution of its call: the state it decided on is the
      fold of the whole stream at that moment. */
  lemma {:induction false} CommitIsSerial<S, E, B>(cfg: Config<S, E, B>, base: map<string, seq<E>>, s: Sys<S, E, B>,
                                                   id: nat, c: Choice)
    requires id in s.threads && SerialSoFar(cfg, base, s)
    requires var th := s.threads[id]; PcOk(cfg.decider, Stream(s.world, th.ref), th.decide, th.pc)
    ensures SerialSoFar(cfg, base, Next(cfg, s, Advance(id, c)))
  {
    var th := s.threads[id];
    if Accepted(s.world, th, c) {
      AcceptedApplies(cfg, s.world, th, id, c);
      SerialAppend(cfg.decider, base, s.log, Call(id, th.ref, th.decide));
    }
  }

  lemma {:induction false} StepKeepsInv<S(!new), E, B>(cfg: Config<S, E, B>, base: map<string, seq<E>>,
                                                       s: Sys<S, E, B>, step: Step<S, E>)
    requires Lawful(cfg) && Inv(cfg, base, s) && Enabled(s, step)
    ensures Inv(cfg, base, Next(cfg, s, step))
  {
    match step
    case Start(id, ref, decide) =>
    case Advance(id, c) =>
      NextWorldSound(cfg, s.world, s.threads[id], c);
      AdvanceThreadsOk(cfg, s, id, c);
      AdvanceLoggedOnce(cfg, s, id, c);
      CommitIsSerial(cfg, base, s, id, c);
    case EvictEntry(ref) =>
    case DeleteSnapshot(ref) =>
    case AppendBatch(ref, events) => AppendBatchKeepsInv(cfg, base, s, ref, events);
  }

  lemma {:induction false} AppendBatchThreadsOk<S, E, B>(cfg: Config<S, E, B>, s: Sys<S, E, B>, ref: string,
                                                         events: seq<E>)
    requires ThreadsOk(cfg, s)
    ensures ThreadsOk(cfg, Next(cfg, s, AppendBatch(ref, events)))
  {
    var s' := Next(cfg, s, AppendBatch(ref, events));
    forall id | id in s.threads
      ensures PcOk(cfg.decider, Stream(s'.world, s.threads[id].ref), s.threads[id].decide, s.threads[id].pc)
    {
      var th := s.threads[id];
      AppendedStream(s.world.streams, ref, events, th.ref);
      PcGrows(cfg.decider, Stream(s.world, th.ref), if th.ref == ref then events else [], th.decide, th.pc);
    }
  }

  lemma {:induction false} AppendBatchLoggedOnce<S, E, B>(cfg: Config<S, E, B>, s: Sys<S, E, B>, ref: string,
                                                          events: seq<E>)
    requires LoggedOnce(s)
    ensures LoggedOnce(Next(cfg, s, AppendBatch(ref, events)))
  {
    var s' := Next(cfg, s, AppendBatch(ref, events));
    forall i ensures CallsOf(s'.log, i) == CallsOf(s.log, i) {
      CallsOfAppend(s.log, Import(ref, events), i);
    }
  }

  lemma {:induction false} AppendBatchKeepsInv<S, E, B>(cfg: Config<S, E, B>, base: map<string, seq<E>>,
                                                        s: Sys<S, E, B>, ref: string, events: seq<E>)
    requires Inv(cfg, base, s)
    ensures Inv(cfg, base, Next(cfg, s, AppendBatch(ref, events)))
  {
    SoundGrows(cfg, s.world, ref, events);
    AppendBatchThreadsOk(cfg, s, ref, events);
    AppendBatchLoggedOnce(cfg, s, ref, events);
    SerialAppend(cfg.decider, base, s.log, Import(ref, events));
  }

  // ---- Runs ----

  ghost predicate Runs<S, E, B>(cfg: Config<S, E, B>, s: Sys<S, E, B>, steps: seq<Step<S, E>>)
    decreases |steps|
  {
    steps == [] || (Enabled(s, steps[0]) && Runs(cfg, Next(cfg, s, steps[0]), steps[1..]))
  }

  ghost function After<S, E, B>(cfg: Config<S, E, B>, s: Sys<S, E, B>, steps: seq<Step<S, E>>): Sys<S, E, B>
    requires Runs(cfg, s, steps)
    decreases |steps|
  {
    if steps == [] then s else After(cfg, Next(cfg, s, steps[0]), steps[1..])
  }

  lemma {:induction false} RunKeepsInv<S(!new), E, B>(cfg: Config<S, E, B>, base: map<string, seq<E>>,
                                                      s: Sys<S, E, B>, steps: seq<Step<S, E>>)
    requires Lawful(cfg) && Inv(cfg, base, s) && Runs(cfg, s, steps)
    ensures Inv(cfg, base, After(cfg, s, steps))
    decreases |steps|
  {
    if steps != [] {
      StepKeepsInv(cfg, base, s, steps[0]);
      RunKeepsInv(cfg, base, Next(cfg, s, steps[0]), steps[1..]);
    }
  }

  /** No call has started; the cache and the snapshots are sound for the streams found. */
  ghost predicate Initial<S, E, B>(cfg: Config<S, E, B>, s: Sys<S, E, B>) {
    Sound(cfg, s.world) && s.threads == map[] && s.log == [] && s.published == []
  }

  /** In every interleaving the streams are those of a serial execution of the committed calls in
      commit order, where each call replays the whole stream before its batch; a call is committed
      exactly once if it got past its save, and never otherwise. */
  lemma {:induction false} EveryRunIsSerial<S(!new), E, B>(cfg: Config<S, E, B>, s: Sys<S, E, B>,
                                                           steps: seq<Step<S, E>>)
    requires Lawful(cfg) && Initial(cfg, s) && Runs(cfg, s, steps)
    ensures var s' := After(cfg, s, steps);
            && s'.world.streams == Serial(cfg.decider, s.world.streams, s'.log)
            && LogApplies(cfg.decider, s.world.streams, s'.log)
            && forall id :: CallsOf(s'.log, id) == if id in s'.threads && HasSaved(s'.threads[id].pc) then 1 else 0
  {
    RunKeepsInv(cfg, s.world.streams, s, steps);
  }

  /** These are the events decided on the state that applying the whole stream, event by event, leads to. */
  ghost predicate DecidedOn<S(!new), E>(d: Decider<S, E>, stream: seq<E>, decide: Decide<S, E>, events: seq<E>) {
    exists state :: Leads(d, d.initial, stream, state) && decide(state, |stream|) == Some(events)
  }

  /** The commit extends its stream: a call by a batch it decided on after all events before it were
      applied, an import by its own events. */
  ghost predicate Extends<S(!new), E>(d: Decider<S, E>, before: seq<E>, after: seq<E>, c: Commit<S, E>) {
    && before <= after
    && var events := after[|before|..];
       if c.Import? then events == c.events else events != [] && DecidedOn(d, before, c.decide, events)
  }

  lemma {:induction false} SerialStepExtends<S(!new), E>(d: Decider<S, E>, streams: map<string, seq<E>>, c: Commit<S, E>,
                                                        other: string)
    requires c.Call? ==> Applies(d, streams, c)
    ensures var after := SerialStep(d, streams, c);
            && Extends(d, StreamOf(streams, c.ref), StreamOf(after, c.ref), c)
            && (other != c.ref ==> StreamOf(after, other) == StreamOf(streams, other))
  {
    var stream, after := StreamOf(streams, c.ref), SerialStep(d, streams, c);
    if c.Import? {
      AppendedStream(streams, c.ref, c.events, c.ref);
      assert StreamOf(after, c.ref)[|stream|..] == c.events;
    } else {
      FoldAppliesEveryEvent(d, d.initial, stream);
      var state := Fold(d, d.initial, stream).value;
      var events := c.decide(state, |stream|).value;
      AppendedStream(streams, c.ref, events, c.ref);
      assert StreamOf(after, c.ref)[|stream|..] == events;
      assert Leads(d, d.initial, stream, state) && c.decide(state, |stream|) == Some(events);
    }
  }

  lemma {:induction false} SerialAt<S, E>(d: Decider<S, E>, base: map<string, seq<E>>, log: seq<Commit<S, E>>, i: nat)
    requires LogApplies(d, base, log) && i < |log|
    ensures var before := Serial(d, base, log[..i]);
            && Serial(d, base, log[..i + 1]) == SerialStep(d, before, log[i])
            && (log[i].Call? ==> Applies(d, before, log[i]))
  {
    assert log[..i + 1][..i] == log[..i];
  }

  /** The i-th commit of every run: it extends its own stream only, starting from the streams found and
      ending at those of the run. */
  lemma {:induction false} EveryCommitExtendsOneStream<S(!new), E, B>(cfg: Config<S, E, B>, s: Sys<S, E, B>,
                                                                     steps: seq<Step<S, E>>, i: nat, other: string)
    requires Lawful(cfg) && Initial(cfg, s) && Runs(cfg, s, steps) && i < |After(cfg, s, steps).log|
    ensures var log, d := After(cfg, s, steps).log, cfg.decider;
            var before, after := Serial(d, s.world.streams, log[..i]), Serial(d, s.world.streams, log[..i + 1]);
            && (i == 0 ==> before == s.world.streams)
            && (i + 1 == |log| ==> after == After(cfg, s, steps).world.streams)
            && Extends(d, StreamOf(before, log[i].ref), StreamOf(after, log[i].ref), log[i])
            && (other != log[i].ref ==> StreamOf(after, other) == StreamOf(before, other))
  {
    EveryRunIsSerial(cfg, s, steps);
    var log := After(cfg, s, steps).log;
    var before := Serial(cfg.decider, s.world.streams, log[..i]);
    assert log[..|log|] == log;
    SerialAt(cfg.decider, s.world.streams, log, i);
    SerialStepExtends(cfg.decider, before, log[i], other);
  }

  // ---- What is published ----

  predicate HasPublished<S, E>(pc: PC<S, E>) {
    pc.SaveSnapshot? || pc.UpdateCache? || (pc.Ended? && pc.result.Saved?)
  }

  function PublicationsOf<E>(published: seq<Publication<E>>, id: nat): nat {
    if published == [] then 0
    else PublicationsOf(published[..|published| - 1], id) + if published[|published| - 1].id == id then 1 else 0
  }

  /** Run alone on these streams, the call appends exactly these events. */
  ghost predicate AppendsBatch<S, E>(d: Decider<S, E>, streams: map<string, seq<E>>, c: Commit<S, E>, events: seq<E>)
    requires c.Call?
  {
    && Applies(d, streams, c)
    && var stream := StreamOf(streams, c.ref); c.decide(Fold(d, d.initial, stream).value, |stream|).value == events
  }

  /** The i-th commit is this call's, and this is the batch it appended. */
  ghost predicate CommittedAt<S, E>(d: Decider<S, E>, base: map<string, seq<E>>, log: seq<Commit<S, E>>,
                                    p: Publication<E>, i: int) {
    && 0 <= i < |log| && log[i].Call? && log[i].id == p.id && log[i].ref == p.ref
    && AppendsBatch(d, Serial(d, base, log[..i]), log[i], p.events)
  }

  ghost predicate Committed<S, E>(d: Decider<S, E>, base: map<string, seq<E>>, log: seq<Commit<S, E>>,
                                  p: Publication<E>) {
    exists i :: CommittedAt(d, base, log, p, i)
  }

  lemma {:induction false} CommittedStays<S, E>(d: Decider<S, E>, base: map<string, seq<E>>, log: seq<Commit<S, E>>,
                                                more: seq<Commit<S, E>>, p: Publication<E>)
    requires Committed(d, base, log, p)
    ensures Committed(d, base, log + more, p)
  {
    var i :| CommittedAt(d, base, log, p, i);
    assert (log + more)[..i] == log[..i];
    assert CommittedAt(d, base, log + more, p, i);
  }

  /** The batch of a call that is about to publish, and every batch that was published, is committed. */
  ghost predicate PublishesCommitted<S, E, B>(cfg: Config<S, E, B>, base: map<string, seq<E>>, s: Sys<S, E, B>) {
    && (forall id :: id in s.threads && s.threads[id].pc.Publish? ==>
          Committed(cfg.decider, base, s.log, Publication(id, s.threads[id].ref, s.threads[id].pc.events)))
    && (forall k :: 0 <= k < |s.published| ==> Committed(cfg.decider, base, s.log, s.published[k]))
  }

  ghost predicate PublishedOnce<S, E, B>(s: Sys<S, E, B>) {
    forall id :: PublicationsOf(s.published, id) == if id in s.threads && HasPublished(s.threads[id].pc) then 1 else 0
  }

  lemma {:induction false} SavedIsCommitted<S, E, B>(cfg: Config<S, E, B>, base: map<string, seq<E>>, s: Sys<S, E, B>,
                                                    id: nat, c: Choice)
    requires id in s.threads && SerialSoFar(cfg, base, s) && Accepted(s.world, s.threads[id], c)
    requires var th := s.threads[id]; PcOk(cfg.decider, Stream(s.world, th.ref), th.decide, th.pc)
    ensures var th := s.threads[id];
            Committed(cfg.decider, base, s.log + [Call(id, th.ref, th.decide)], Publication(id, th.ref, th.pc.events))
  {
    var th := s.threads[id];
    var log := s.log + [Call(id, th.ref, th.decide)];
    AcceptedApplies(cfg, s.world, th, id, c);
    assert log[..|s.log|] == s.log;
    assert Stream(s.world, th.ref)[..th.pc.version] == Stream(s.world, th.ref);
    assert CommittedAt(cfg.decider, base, log, Publication(id, th.ref, th.pc.events), |s.log|);
  }

  lemma {:induction false} AdvancePublishesCommitted<S, E, B>(cfg: Config<S, E, B>, base: map<string, seq<E>>,
                                                             s: Sys<S, E, B>, id: nat, c: Choice)
    requires PublishesCommitted(cfg, base, s) && SerialSoFar(cfg, base, s) && ThreadsOk(cfg, s) && id in s.threads
    ensures PublishesCommitted(cfg, base, Next(cfg, s, Advance(id, c)))
  {
    var th := s.threads[id];
    var s' := Next(cfg, s, Advance(id, c));
    if Accepted(s.world, th, c) {
      SavedIsCommitted(cfg, base, s, id, c);
    }
    LogGrowsCommitted(cfg, base, s, s'.log);
  }

  /** Everything committed so far stays so in a longer log. */
  lemma {:induction false} LogGrowsCommitted<S, E, B>(cfg: Config<S, E, B>, base: map<string, seq<E>>, s: Sys<S, E, B>,
                                                     log: seq<Commit<S, E>>)
    requires PublishesCommitted(cfg, base, s) && s.log <= log
    ensures PublishesCommitted(cfg, base, s.(log := log))
  {
    var more := log[|s.log|..];
    assert log == s.log + more;
    forall id | id in s.threads && s.threads[id].pc.Publish?
      ensures Committed(cfg.decider, base, log, Publication(id, s.threads[id].ref, s.threads[id].pc.events))
    {
      CommittedStays(cfg.decider, base, s.log, more, Publication(id, s.threads[id].ref, s.threads[id].pc.events));
    }
    forall k | 0 <= k < |s.published| ensures Committed(cfg.decider, base, log, s.published[k]) {
      CommittedStays(cfg.decider, base, s.log, more, s.published[k]);
    }
  }

  lemma {:induction false} PublicationsAppend<E>(published: seq<Publication<E>>, p: Publication<E>, id: nat)
    ensures PublicationsOf(published + [p], id) == PublicationsOf(published, id) + if p.id == id then 1 else 0
  {
    assert (published + [p])[..|published|] == published;
  }

  /** A call passes into its published phase exactly in the step that publishes. */
  lemma {:induction false} PublishedExactlyByPublishing<S, E, B>(cfg: Config<S, E, B>, w: World<S, E, B>,
                                                                th: Thread<S, E>, c: Choice)
    ensures HasPublished(NextPC(cfg, w, th, c)) <==> HasPublished(th.pc) || (th.pc.Publish? && c.works)
    ensures th.pc.Publish? ==> !HasPublished(th.pc)
  {
  }

  lemma {:induction false} AdvancePublishedOnce<S, E, B>(cfg: Config<S, E, B>, s: Sys<S, E, B>, id: nat, c: Choice)
    requires PublishedOnce(s) && id in s.threads
    ensures PublishedOnce(Next(cfg, s, Advance(id, c)))
  {
    var th := s.threads[id];
    var s' := Next(cfg, s, Advance(id, c));
    PublishedExactlyByPublishing(cfg, s.world, th, c);
    forall i ensures PublicationsOf(s'.published, i) ==
                     if i in s'.threads && HasPublished(s'.threads[i].pc) then 1 else 0
    {
      if th.pc.Publish? {
        PublicationsAppend(s.published, Publication(id, th.ref, th.pc.events), i);
      }
    }
  }

  lemma {:induction false} StepPublishes<S, E, B>(cfg: Config<S, E, B>, base: map<string, seq<E>>, s: Sys<S, E, B>,
                                                 step: Step<S, E>)
    requires PublishesCommitted(cfg, base, s) && PublishedOnce(s) && Inv(cfg, base, s) && Enabled(s, step)
    ensures PublishesCommitted(cfg, base, Next(cfg, s, step)) && PublishedOnce(Next(cfg, s, step))
  {
    match step
    case Advance(id, c) =>
      AdvancePublishesCommitted(cfg, base, s, id, c);
      AdvancePublishedOnce(cfg, s, id, c);
    case AppendBatch(ref, events) => LogGrowsCommitted(cfg, base, s, s.log + [Import(ref, events)]);
    case _ =>
  }

  lemma {:induction false} RunPublishes<S(!new), E, B>(cfg: Config<S, E, B>, base: map<string, seq<E>>, s: Sys<S, E, B>,
                                                      steps: seq<Step<S, E>>)
    requires Lawful(cfg) && Inv(cfg, base, s) && Runs(cfg, s, steps)
    requires PublishesCommitted(cfg, base, s) && PublishedOnce(s)
    ensures PublishesCommitted(cfg, base, After(cfg, s, steps)) && PublishedOnce(After(cfg, s, steps))
    decreases |steps|
  {
    if steps != [] {
      StepKeepsInv(cfg, base, s, steps[0]);
      StepPublishes(cfg, base, s, steps[0]);
      RunPublishes(cfg, base, Next(cfg, s, steps[0]), steps[1..]);
    }
  }

  /** In every interleaving, what reaches the publisher is the batch that a committed call appended at
      its place in commit order; a call's batch is published exactly once if the call got past its
      publish, and never otherwise. */
  lemma {:induction false} EveryPublicationIsCommitted<S(!new), E, B>(cfg: Config<S, E, B>, s: Sys<S, E, B>,
                                                                     steps: seq<Step<S, E>>)
    requires Lawful(cfg) && Initial(cfg, s) && Runs(cfg, s, steps)
    ensures var s' := After(cfg, s, steps);
            && (forall k :: 0 <= k < |s'.published| ==>
                  Committed(cfg.decider, s.world.streams, s'.log, s'.published[k]))
            && forall id :: PublicationsOf(s'.published, id) ==
                            if id in s'.threads && HasPublished(s'.threads[id].pc) then 1 else 0
  {
    RunPublishes(cfg, s.world.streams, s, steps);
  }

  // ---- Snapshots have streams ----

  /** A call that may still write a snapshot has a stream, or events to give it one. */
  ghost predicate ThreadBacked<S, E>(streams: map<string, seq<E>>, th: Thread<S, E>) {
    && (th.pc.TrySave? ==> th.pc.events != [])
    && (th.pc.Publish? || th.pc.SaveSnapshot? ==> th.ref in streams)
  }

  /** Every usable snapshot has a stream, and none is about to be written without one. */
  ghost predicate Backed<S, E, B>(cfg: Config<S, E, B>, s: Sys<S, E, B>) {
    && (forall ref :: !Orphan(cfg, s.world, ref))
    && (forall id :: id in s.threads ==> ThreadBacked(s.world.streams, s.threads[id]))
  }

  lemma {:induction false} StreamsStay<S, E, B>(cfg: Config<S, E, B>, w: World<S, E, B>, th: Thread<S, E>, c: Choice,
                                               ref: string)
    ensures ref in w.streams ==> ref in NextWorld(cfg, w, th, c).streams
  {
  }

  lemma {:induction false} NextThreadBacked<S, E, B>(cfg: Config<S, E, B>, w: World<S, E, B>, th: Thread<S, E>, c: Choice)
    requires ThreadBacked(w.streams, th)
    ensures ThreadBacked(NextWorld(cfg, w, th, c).streams, th.(pc := NextPC(cfg, w, th, c)))
  {
  }

  lemma {:induction false} NextHasNoOrphan<S, E, B>(cfg: Config<S, E, B>, w: World<S, E, B>, th: Thread<S, E>, c: Choice,
                                                   ref: string)
    requires ThreadBacked(w.streams, th) && !Orphan(cfg, w, ref)
    ensures !Orphan(cfg, NextWorld(cfg, w, th, c), ref)
  {
    StreamsStay(cfg, w, th, c, ref);
  }

  lemma {:induction false} AdvanceBacked<S, E, B>(cfg: Config<S, E, B>, s: Sys<S, E, B>, id: nat, c: Choice)
    requires Backed(cfg, s) && id in s.threads
    ensures Backed(cfg, Next(cfg, s, Advance(id, c)))
  {
    var th := s.threads[id];
    var s' := Next(cfg, s, Advance(id, c));
    NextThreadBacked(cfg, s.world, th, c);
    forall ref ensures !Orphan(cfg, s'.world, ref) {
      NextHasNoOrphan(cfg, s.world, th, c, ref);
    }
    forall other | other in s.threads && other != id ensures ThreadBacked(s'.world.streams, s.threads[other]) {
      StreamsStay(cfg, s.world, th, c, s.threads[other].ref);
    }
  }

  lemma {:induction false} StepBacked<S, E, B>(cfg: Config<S, E, B>, s: Sys<S, E, B>, step: Step<S, E>)
    requires Backed(cfg, s) && Enabled(s, step)
    ensures Backed(cfg, Next(cfg, s, step))
  {
    var s' := Next(cfg, s, step);
    match step
    case Advance(id, c) => AdvanceBacked(cfg, s, id, c);
    case _ =>
      forall ref ensures !Orphan(cfg, s'.world, ref) {
        assert !Orphan(cfg, s.world, ref);
      }
  }

  lemma {:induction false} RunBacked<S, E, B>(cfg: Config<S, E, B>, s: Sys<S, E, B>, steps: seq<Step<S, E>>)
    requires Backed(cfg, s) && Runs(cfg, s, steps)
    ensures Backed(cfg, After(cfg, s, steps))
    decreases |steps|
  {
    if steps != [] {
      StepBacked(cfg, s, steps[0]);
      RunBacked(cfg, Next(cfg, s, steps[0]), steps[1..]);
    }
  }

  /** In every reachable state a cache hit and a full replay at that point agree, and a snapshot load
      agrees with them if and only if its snapshot has a stream; no run makes a snapshot without one. */
  lemma {:induction false} LoadPathsAlwaysAgree<S(!new), E, B>(cfg: Config<S, E, B>, s: Sys<S, E, B>,
                                                               steps: seq<Step<S, E>>, ref: string)
    requires Lawful(cfg) && Initial(cfg, s) && Runs(cfg, s, steps)
    ensures var w := After(cfg, s, steps).world;
            && Sound(cfg, w)
            && (SnapshotLoad(cfg, w, ref) == ReplayLoad(cfg, w, ref) <==> !Orphan(cfg, w, ref))
            && (CachedLoad(cfg, w, ref).Some? ==> CachedLoad(cfg, w, ref).value == ReplayLoad(cfg, w, ref))
            && ((forall r :: !Orphan(cfg, s.world, r)) ==> !Orphan(cfg, w, ref))
  {
    RunKeepsInv(cfg, s.world.streams, s, steps);
    LoadPathsAgree(cfg, After(cfg, s, steps).world, ref);
    if forall r :: !Orphan(cfg, s.world, r) {
      RunBacked(cfg, s, steps);
    }
  }
}
