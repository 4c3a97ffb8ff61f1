/**
 The event-sourcing repository (decider/decider.go, load.go, snapshot_load.go,
 snapshot_save.go): folding, the three load paths and the caches they share.
 */
module Deciders {
  import opened Basics

  /** `apply` answers None where the source's Apply returns an error. */
  datatype Decider<!S, !E> = Decider(initial: S, apply: (S, E) -> Option<S>)

  datatype Codec<!S, !B> = Codec(encode: S -> Option<B>, decode: B -> Option<S>)

  /** `shape` is the declared snapshot state shape, empty when undeclared. */
  datatype Config<!S, !E, !B> = Config(decider: Decider<S, E>, codec: Codec<S, B>, shape: string,
                                       cached: bool, snapshotting: bool)

  datatype Entry<+S> = Entry(state: S, version: nat)

  datatype Snapshot<+B> = Snapshot(bytes: B, version: nat, shape: string)

  datatype World<S, E, B> = World(streams: map<string, seq<E>>, cache: map<string, Entry<S>>,
                                  snapshots: map<string, Snapshot<B>>)

  datatype Load<+S> = Loaded(state: S, version: nat) | Failed

  function Stream<S, E, B>(w: World<S, E, B>, ref: string): seq<E> {
    StreamOf(w.streams, ref)
  }

  function StreamOf<E>(streams: map<string, seq<E>>, ref: string): seq<E> {
    if ref in streams then streams[ref] else []
  }

  /** A stream comes into being with its first event: appending nothing creates none. */
  function Appended<E>(streams: map<string, seq<E>>, ref: string, events: seq<E>): map<string, seq<E>> {
    if events == [] then streams else streams[ref := StreamOf(streams, ref) + events]
  }

  lemma {:induction false} AppendedStream<E>(streams: map<string, seq<E>>, ref: string, events: seq<E>, other: string)
    ensures StreamOf(Appended(streams, ref, events), other) ==
            StreamOf(streams, other) + if other == ref then events else []
    ensures other in Appended(streams, ref, events) <==> other in streams || (other == ref && events != [])
  {
    assert StreamOf(streams, other) + [] == StreamOf(streams, other);
  }

  // ---- Folding ----

  function Fold<S, E>(d: Decider<S, E>, state: S, events: seq<E>): Option<S>
    decreases |events|
  {
    if events == [] then Some(state)
    else match d.apply(state, events[0])
      case None => None
      case Some(next) => Fold(d, next, events[1..])
  }

  lemma {:induction false} FoldConcat<S, E>(d: Decider<S, E>, state: S, a: seq<E>, b: seq<E>)
    ensures Fold(d, state, a + b) ==
            match Fold(d, state, a) case None => None case Some(mid) => Fold(d, mid, b)
    decreases |a|
  {
    if a == [] {
      assert a + b == b;
    } else {
      assert (a + b)[1..] == a[1..] + b;
      match d.apply(state, a[0])
      case None =>
      case Some(next) => FoldConcat(d, next, a[1..], b);
    }
  }

  // ---- What folding means ----

  /** `states` are the states that applying the events one after the other goes through. */
  ghost predicate Chain<S, E>(d: Decider<S, E>, events: seq<E>, states: seq<S>) {
    && |states| == |events| + 1
    && forall i :: 0 <= i < |events| ==> d.apply(states[i], events[i]) == Some(states[i + 1])
  }

  /** Applying all the events leads from `state` to `final`. */
  ghost predicate Leads<S(!new), E>(d: Decider<S, E>, state: S, events: seq<E>, final: S) {
    exists states :: Chain(d, events, states) && states[0] == state && states[|events|] == final
  }

  /** Applying the events from `state` on comes to one that `apply` refuses. */
  ghost predicate Refuses<S(!new), E>(d: Decider<S, E>, state: S, events: seq<E>) {
    exists n, at :: 0 <= n < |events| && Leads(d, state, events[..n], at) && d.apply(at, events[n]).None?
  }

  lemma {:induction false} ChainAfter<S, E>(d: Decider<S, E>, state: S, events: seq<E>, states: seq<S>)
    requires events != [] && Chain(d, events[1..], states) && d.apply(state, events[0]) == Some(states[0])
    ensures Chain(d, events, [state] + states)
  {
    var all := [state] + states;
    forall i | 0 <= i < |events| ensures d.apply(all[i], events[i]) == Some(all[i + 1]) {
      if i > 0 {
        assert events[i] == events[1..][i - 1];
      }
    }
  }

  lemma {:induction false} ChainApplies<S, E>(d: Decider<S, E>, events: seq<E>, states: seq<S>, i: nat)
    requires Chain(d, events, states) && i < |events|
    ensures d.apply(states[i], events[i]) == Some(states[i + 1])
  {
  }

  lemma {:induction false} LeadsFirst<S(!new), E>(d: Decider<S, E>, state: S, events: seq<E>, final: S)
    ensures events == [] ==> (Leads(d, state, events, final) <==> state == final)
    ensures events != [] && d.apply(state, events[0]).None? ==> !Leads(d, state, events, final)
    ensures events != [] && d.apply(state, events[0]).Some? ==>
              (Leads(d, state, events, final) <==> Leads(d, d.apply(state, events[0]).value, events[1..], final))
  {
    forall states | events != [] && Chain(d, events, states) && states[0] == state
      ensures d.apply(state, events[0]) == Some(states[1])
    {
      ChainApplies(d, events, states, 0);
    }
    if events == [] {
      assert Chain(d, events, [state]);
    } else if d.apply(state, events[0]).Some? {
      var next := d.apply(state, events[0]).value;
      if states :| Chain(d, events, states) && states[0] == state && states[|events|] == final {
        assert Chain(d, events[1..], states[1..]);
      }
      if states :| Chain(d, events[1..], states) && states[0] == next && states[|events| - 1] == final {
        ChainAfter(d, state, events, states);
        assert ([state] + states)[|events|] == final;
      }
    }
  }

  lemma {:induction false} RefusesFirst<S(!new), E>(d: Decider<S, E>, state: S, events: seq<E>)
    requires events != []
    ensures d.apply(state, events[0]).None? ==> Refuses(d, state, events)
    ensures d.apply(state, events[0]).Some? ==>
              (Refuses(d, state, events) <==> Refuses(d, d.apply(state, events[0]).value, events[1..]))
  {
    var first := d.apply(state, events[0]);
    LeadsFirst(d, state, events[..0], state);
    if first.None? {
      assert Leads(d, state, events[..0], state) && d.apply(state, events[0]).None?;
    } else {
      if n, at :| 0 <= n < |events| && Leads(d, state, events[..n], at) && d.apply(at, events[n]).None? {
        LeadsFirst(d, state, events[..n], at);
        assert n > 0 && events[..n][1..] == events[1..][..n - 1];
        assert Leads(d, first.value, events[1..][..n - 1], at) && d.apply(at, events[1..][n - 1]).None?;
      }
      if n, at :| 0 <= n < |events| - 1 && Leads(d, first.value, events[1..][..n], at) &&
                  d.apply(at, events[1..][n]).None?
      {
        LeadsFirst(d, state, events[..n + 1], at);
        assert events[..n + 1][1..] == events[1..][..n];
        assert Leads(d, state, events[..n + 1], at) && d.apply(at, events[n + 1]).None?;
      }
    }
  }

  /** Folding gives a state exactly when applying every event in turn leads to it, and none exactly
      when an event is refused on the way. */
  lemma {:induction false} FoldAppliesEveryEvent<S(!new), E>(d: Decider<S, E>, state: S, events: seq<E>)
    ensures forall final :: Fold(d, state, events) == Some(final) <==> Leads(d, state, events, final)
    ensures Fold(d, state, events) == None <==> Refuses(d, state, events)
    decreases |events|
  {
    if events == [] {
      forall final ensures Leads(d, state, events, final) <==> state == final {
        LeadsFirst(d, state, events, final);
      }
    } else {
      RefusesFirst(d, state, events);
      var first := d.apply(state, events[0]);
      if first.Some? {
        FoldAppliesEveryEvent(d, first.value, events[1..]);
      }
      forall final ensures Fold(d, state, events) == Some(final) <==> Leads(d, state, events, final) {
        LeadsFirst(d, state, events, final);
      }
    }
  }

  /** `state` is what the first `version` events of the stream fold to. */
  ghost predicate Grounded<S, E>(d: Decider<S, E>, stream: seq<E>, state: S, version: nat) {
    version <= |stream| && Fold(d, d.initial, stream[..version]) == Some(state)
  }

  /** Appending never invalidates a grounded state. */
  lemma {:induction false} GroundedGrows<S, E>(d: Decider<S, E>, stream: seq<E>, more: seq<E>, state: S, version: nat)
    requires Grounded(d, stream, state, version)
    ensures Grounded(d, stream + more, state, version)
  {
    assert (stream + more)[..version] == stream[..version];
  }

  /** Folding the events from `version` to `upTo` onto a grounded state gives a grounded state,
      and fails exactly when the replay of all of them fails. */
  lemma {:induction false} GroundedAdvances<S, E>(d: Decider<S, E>, stream: seq<E>, state: S, version: nat, upTo: nat)
    requires Grounded(d, stream, state, version) && version <= upTo <= |stream|
    ensures Fold(d, state, stream[version..upTo]) == Fold(d, d.initial, stream[..upTo])
  {
    assert stream[..upTo] == stream[..version] + stream[version..upTo];
    FoldConcat(d, d.initial, stream[..version], stream[version..upTo]);
  }

  // ---- Reads ----

  /** What a read sees of a stream: a replica, or a load shared with an earlier caller, may lag,
      so a read of length `seen` stands for any prefix. */
  function TailFrom<E>(stream: seq<E>, version: nat, seen: nat): seq<E>
    requires seen <= |stream|
  {
    if version >= seen then [] else stream[version..seen]
  }

  function Replayed<S, E>(d: Decider<S, E>, events: seq<E>): Load<S> {
    match Fold(d, d.initial, events)
    case None => Failed
    case Some(state) => Loaded(state, |events|)
  }

  function Advanced<S, E>(d: Decider<S, E>, state: S, version: nat, tail: seq<E>): Load<S> {
    match Fold(d, state, tail)
    case None => Failed
    case Some(next) => Loaded(next, version + |tail|)
  }

  /** The snapshot's stamp is known to be stale for this repository. */
  predicate ShapeMismatch<S, E, B>(cfg: Config<S, E, B>, snap: Snapshot<B>) {
    cfg.shape != "" && snap.shape != "" && snap.shape != cfg.shape
  }

  /** Decoding gives back what was encoded. */
  ghost predicate Lawful<S(!new), E, B>(cfg: Config<S, E, B>) {
    forall s :: cfg.codec.encode(s).Some? ==> cfg.codec.decode(cfg.codec.encode(s).value) == Some(s)
  }

  ghost predicate SnapshotOk<S, E, B>(cfg: Config<S, E, B>, stream: seq<E>, snap: Snapshot<B>) {
    || ShapeMismatch(cfg, snap)
    || (cfg.codec.decode(snap.bytes).Some? &&
        Grounded(cfg.decider, stream, cfg.codec.decode(snap.bytes).value, snap.version))
  }

  /** Every cached or snapshotted pair is the fold of the events its version counts;
      snapshots of a foreign shape may hold anything. */
  ghost predicate Sound<S, E, B>(cfg: Config<S, E, B>, w: World<S, E, B>) {
    && (forall ref :: ref in w.cache ==>
          Grounded(cfg.decider, Stream(w, ref), w.cache[ref].state, w.cache[ref].version))
    && (forall ref :: ref in w.snapshots ==> SnapshotOk(cfg, Stream(w, ref), w.snapshots[ref]))
  }

  // ---- The three load paths, read at one point ----

  function ReplayLoad<S, E, B>(cfg: Config<S, E, B>, w: World<S, E, B>, ref: string): Load<S> {
    Replayed(cfg.decider, Stream(w, ref))
  }

  /** A full replay applies every event of the stream in turn, from the initial state, and fails exactly
      when one is refused. */
  lemma {:induction false} ReplayMeans<S(!new), E, B>(cfg: Config<S, E, B>, w: World<S, E, B>, ref: string)
    ensures var l, stream, d := ReplayLoad(cfg, w, ref), Stream(w, ref), cfg.decider;
            && (forall state, version :: l == Loaded(state, version) <==>
                  version == |stream| && Leads(d, d.initial, stream, state))
            && (l.Failed? <==> Refuses(d, d.initial, stream))
  {
    FoldAppliesEveryEvent(cfg.decider, cfg.decider.initial, Stream(w, ref));
  }

  /** The tail behind a usable snapshot is read from its stream, which must exist. */
  function SnapshotLoad<S, E, B>(cfg: Config<S, E, B>, w: World<S, E, B>, ref: string): Load<S> {
    if ref !in w.snapshots || ShapeMismatch(cfg, w.snapshots[ref]) then ReplayLoad(cfg, w, ref)
    else
      var snap := w.snapshots[ref];
      match cfg.codec.decode(snap.bytes)
      case None => Failed
      case Some(state) =>
        if ref !in w.streams then Failed
        else
          var stream := w.streams[ref];
          Advanced(cfg.decider, state, snap.version, TailFrom(stream, snap.version, |stream|))
  }

  /** A snapshot that would be used, of a stream that does not exist. */
  predicate Orphan<S, E, B>(cfg: Config<S, E, B>, w: World<S, E, B>, ref: string) {
    ref in w.snapshots && !ShapeMismatch(cfg, w.snapshots[ref]) && ref !in w.streams
  }

  /** None on a miss, an unreadable stream or a fold failure: the caller falls back. */
  function CachedLoad<S, E, B>(cfg: Config<S, E, B>, w: World<S, E, B>, ref: string): Option<Load<S>> {
    if ref !in w.cache || ref !in w.streams then None
    else
      var entry := w.cache[ref];
      var l := Advanced(cfg.decider, entry.state, entry.version,
                        TailFrom(w.streams[ref], entry.version, |w.streams[ref]|));
      if l.Failed? then None else Some(l)
  }

  /** A hit and a full replay that read the store at the same point agree, on failure too; a
      snapshot load agrees with them if and only if the snapshot has a stream. */
  lemma {:induction false} LoadPathsAgree<S, E, B>(cfg: Config<S, E, B>, w: World<S, E, B>, ref: string)
    requires Sound(cfg, w)
    ensures SnapshotLoad(cfg, w, ref) == ReplayLoad(cfg, w, ref) <==> !Orphan(cfg, w, ref)
    ensures CachedLoad(cfg, w, ref).Some? ==> CachedLoad(cfg, w, ref).value == ReplayLoad(cfg, w, ref)
    ensures ref in w.cache && ref in w.streams && CachedLoad(cfg, w, ref).None? ==> ReplayLoad(cfg, w, ref).Failed?
  {
    var stream := Stream(w, ref);
    assert stream[..|stream|] == stream;
    if ref in w.snapshots && !ShapeMismatch(cfg, w.snapshots[ref]) {
      var snap := w.snapshots[ref];
      assert SnapshotOk(cfg, stream, snap);
      GroundedAdvances(cfg.decider, stream, cfg.codec.decode(snap.bytes).value, snap.version, |stream|);
      assert stream[|stream|..] == [];
    }
    if ref in w.cache && ref in w.streams {
      GroundedAdvances(cfg.decider, stream, w.cache[ref].state, w.cache[ref].version, |stream|);
      assert stream[|stream|..] == [];
    }
  }

  /** The failure at an input: every snapshot without a stream fails a load that a replay would start afresh. */
  lemma {:induction false} OrphanSnapshotFails<S, E, B>(cfg: Config<S, E, B>, w: World<S, E, B>, ref: string)
    requires Orphan(cfg, w, ref)
    ensures SnapshotLoad(cfg, w, ref) == Failed && ReplayLoad(cfg, w, ref) == Loaded(cfg.decider.initial, 0)
  {
  }
}
