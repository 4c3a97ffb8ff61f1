/**
 The lifecycle recorder (commandlifecycle/recorder.go): a bounded cache of stream
 versions in front of an event store with optimistic concurrency.

 `Emit` is one recording under a `Fault` chosen by the environment. The lemmas cover
 sequential runs; `RecorderSystem` covers every interleaving.
 */
module Recorders {
  import opened BoundedMaps

  datatype Stored<+E> = Stored(version: nat, payload: E)

  type Streams<E> = map<string, seq<Stored<E>>>

  /** What goes wrong during one emit. An unacknowledged save appends and still reports an error. */
  datatype Fault = Healthy | LoadFails | CreateFails | SaveFails | SaveUnacknowledged

  datatype RecState<E> = RecState(streams: Streams<E>, versions: Bounded<nat>)

  datatype Emission<E> = Emission(key: string, payload: E, fault: Fault)

  /** The stream as `Load` reports it: a missing stream has no events. */
  function Events<E>(streams: Streams<E>, key: string): seq<Stored<E>> {
    if key in streams then streams[key] else []
  }

  datatype Resolution<E> = Resolution(rec: RecState<E>, version: nat)

  /** `nextVersion`: version 0 stands for a failed seed load. */
  function Resolve<E>(r: RecState<E>, key: string, loadFails: bool): Resolution<E> {
    if key in r.versions.entries then
      var v := r.versions.entries[key] + 1;
      Resolution(r.(versions := Put(r.versions, key, v)), v)
    else if loadFails then
      Resolution(r, 0)
    else
      var v := |Events(r.streams, key)| + 1;
      Resolution(r.(versions := Put(r.versions, key, v)), v)
  }

  /** The optimistic check of `Save` with expected version `version - 1`. */
  predicate Accepts<E>(r: RecState<E>, key: string, version: nat) {
    |Events(r.streams, key)| + 1 == version
  }

  function Append<E>(streams: Streams<E>, key: string, version: nat, payload: E): Streams<E> {
    streams[key := Events(streams, key) + [Stored(version, payload)]]
  }

  predicate SaveOk<E>(r: RecState<E>, key: string, version: nat, fault: Fault) {
    Accepts(r, key, version) && !fault.SaveFails? && !fault.SaveUnacknowledged?
  }

  function Save<E>(r: RecState<E>, key: string, version: nat, payload: E, fault: Fault): RecState<E> {
    if Accepts(r, key, version) && !fault.SaveFails? then
      r.(streams := Append(r.streams, key, version, payload))
    else r
  }

  function Reset<E>(r: RecState<E>, key: string): RecState<E> {
    r.(versions := Delete(r.versions, key))
  }

  datatype EmitResult<E> = EmitResult(rec: RecState<E>, recorded: bool)

  function Emit<E>(r: RecState<E>, e: Emission<E>): EmitResult<E> {
    var res := Resolve(r, e.key, e.fault.LoadFails?);
    if res.version == 0 then EmitResult(res.rec, false)
    else if e.fault.CreateFails? then EmitResult(res.rec, false)
    else
      var saved := Save(res.rec, e.key, res.version, e.payload, e.fault);
      if SaveOk(res.rec, e.key, res.version, e.fault) then EmitResult(saved, true)
      else EmitResult(Reset(saved, e.key), false)
  }

  function EmitAll<E>(r: RecState<E>, es: seq<Emission<E>>): RecState<E>
    decreases |es|
  {
    if es == [] then r else EmitAll(Emit(r, es[0]).rec, es[1..])
  }

  /** The payloads emitted on one stream, in order. */
  function PayloadsFor<E>(es: seq<Emission<E>>, key: string): seq<E> {
    if es == [] then []
    else if es[0].key == key then [es[0].payload] + PayloadsFor(es[1..], key)
    else PayloadsFor(es[1..], key)
  }

  function Payloads<E>(s: seq<Stored<E>>): (ps: seq<E>)
    ensures |ps| == |s|
  {
    if s == [] then [] else [s[0].payload] + Payloads(s[1..])
  }

  /** `ps` stamped with the versions that follow `base`. */
  function Stamp<E>(base: nat, ps: seq<E>): (s: seq<Stored<E>>)
    ensures |s| == |ps|
    decreases |ps|
  {
    if ps == [] then [] else [Stored(base + 1, ps[0])] + Stamp(base + 1, ps[1..])
  }

  /** The cached version of the stream disagrees with its length. */
  predicate CacheWrong<E>(r: RecState<E>, key: string) {
    key in r.versions.entries && r.versions.entries[key] != |Events(r.streams, key)|
  }

  // ---- One emit ----

  /** Cached versions of other streams survive unchanged or are evicted; an unbounded cache evicts none. */
  ghost predicate CacheFrames(before: Bounded<nat>, after: Bounded<nat>, key: string) {
    && (key in after.entries ==> key in before.entries && after.entries[key] == before.entries[key])
    && (before.cap <= 0 && key in before.entries ==> key in after.entries)
  }

  lemma {:induction false} ResolveEffect<E>(r: RecState<E>, key: string, loadFails: bool)
    requires Valid(r.versions)
    ensures var res := Resolve(r, key, loadFails);
            && Valid(res.rec.versions) && res.rec.versions.cap == r.versions.cap
            && res.rec.streams == r.streams
            && (res.version == 0 <==> key !in r.versions.entries && loadFails)
            && (res.version == 0 ==> res.rec == r)
            && (res.version != 0 ==> key in res.rec.versions.entries && res.rec.versions.entries[key] == res.version)
            && (res.version != 0 ==>
                  res.version == 1 + (if key in r.versions.entries then r.versions.entries[key]
                                      else |Events(r.streams, key)|))
            && forall k :: k != key ==> CacheFrames(r.versions, res.rec.versions, k)
  {
    var res := Resolve(r, key, loadFails);
    if res.version != 0 {
      PutBinds(r.versions, key, res.version);
    }
  }

  lemma {:induction false} ResetEffect<E>(r: RecState<E>, key: string)
    requires Valid(r.versions)
    ensures var d := Reset(r, key);
            && Valid(d.versions) && d.versions.cap == r.versions.cap
            && d.streams == r.streams
            && key !in d.versions.entries
            && forall k :: k != key ==> CacheFrames(r.versions, d.versions, k)
  {
    DeleteUnbinds(r.versions, key);
  }

  /** An emit touches one stream, and leaves every other cached version as it was or evicts it. */
  lemma {:induction false} EmitFrames<E>(r: RecState<E>, e: Emission<E>, key: string)
    requires Valid(r.versions) && key != e.key
    ensures var r' := Emit(r, e).rec;
            && Events(r'.streams, key) == Events(r.streams, key)
            && CacheFrames(r.versions, r'.versions, key)
  {
    var res := Resolve(r, e.key, e.fault.LoadFails?);
    ResolveEffect(r, e.key, e.fault.LoadFails?);
    var saved := Save(res.rec, e.key, res.version, e.payload, e.fault);
    ResetEffect(saved, e.key);
    assert CacheFrames(r.versions, res.rec.versions, key);
    assert CacheFrames(saved.versions, Reset(saved, e.key).versions, key);
  }

  /** The emit reaches a save that the environment lets through. */
  predicate Attempts<E>(r: RecState<E>, e: Emission<E>) {
    e.fault.Healthy? || e.fault.SaveUnacknowledged? || (e.fault.LoadFails? && e.key in r.versions.entries)
  }

  lemma {:induction false} SaveEffect<E>(r: RecState<E>, key: string, version: nat, payload: E, fault: Fault)
    ensures var saved := Save(r, key, version, payload, fault);
            && saved.versions == r.versions
            && Events(saved.streams, key) == Events(r.streams, key) +
               (if Accepts(r, key, version) && !fault.SaveFails? then [Stored(version, payload)] else [])
  {
  }

  /** What an emit does to its own stream and cached version, for every fault. */
  lemma {:induction false} EmitEffect<E>(r: RecState<E>, e: Emission<E>)
    requires Valid(r.versions)
    ensures var r' := Emit(r, e).rec;
            && Valid(r'.versions) && r'.versions.cap == r.versions.cap
            && Events(r'.streams, e.key) == Events(r.streams, e.key) +
               (if Attempts(r, e) && !CacheWrong(r, e.key)
                then [Stored(|Events(r.streams, e.key)| + 1, e.payload)] else [])
            && (!e.fault.CreateFails? ==> !CacheWrong(r', e.key))
            && (e.fault.CreateFails? ==>
                  && e.key in r'.versions.entries
                  && r'.versions.entries[e.key] ==
                     1 + (if e.key in r.versions.entries then r.versions.entries[e.key]
                          else |Events(r.streams, e.key)|))
    ensures Emit(r, e).recorded <==> Attempts(r, e) && !e.fault.SaveUnacknowledged? && !CacheWrong(r, e.key)
    ensures Emit(r, e).recorded ==>
              var r' := Emit(r, e).rec;
              e.key in r'.versions.entries && r'.versions.entries[e.key] == |Events(r'.streams, e.key)|
  {
    var res := Resolve(r, e.key, e.fault.LoadFails?);
    ResolveEffect(r, e.key, e.fault.LoadFails?);
    if res.version != 0 && !e.fault.CreateFails? {
      SaveEffect(res.rec, e.key, res.version, e.payload, e.fault);
      ResetEffect(Save(res.rec, e.key, res.version, e.payload, e.fault), e.key);
    }
  }

  // ---- Sequential runs ----

  lemma {:induction false} StampExtend<E>(base: nat, p: E, ps: seq<E>)
    ensures Stamp(base, [p] + ps) == [Stored(base + 1, p)] + Stamp(base + 1, ps)
  {
    assert ([p] + ps)[1..] == ps;
  }

  /** One emit, healthy if it is on this stream, seen from a stream whose cached version is right. */
  lemma {:induction false} RightStep<E>(r: RecState<E>, e: Emission<E>, key: string)
    requires Valid(r.versions) && !CacheWrong(r, key) && (e.key == key ==> e.fault.Healthy?)
    ensures var r' := Emit(r, e).rec;
            && Valid(r'.versions) && !CacheWrong(r', key)
            && Events(r'.streams, key) == Events(r.streams, key) +
               (if e.key == key then [Stored(|Events(r.streams, key)| + 1, e.payload)] else [])
  {
    EmitEffect(r, e);
    if e.key != key {
      EmitFrames(r, e, key);
    }
  }

  lemma {:induction false} StampJoin<E>(s: seq<Stored<E>>, more: seq<Stored<E>>, p: E, ps: seq<E>)
    requires more == [] || more == [Stored(|s| + 1, p)]
    ensures s + more + Stamp(|s + more|, ps) == s + Stamp(|s|, if more == [] then ps else [p] + ps)
  {
    StampExtend(|s|, p, ps);
  }

  /** A cached version that is right stays right through healthy emits: nothing is lost. */
  lemma {:induction false} RightVersionLosesNothing<E>(r: RecState<E>, es: seq<Emission<E>>, key: string)
    requires Valid(r.versions) && !CacheWrong(r, key)
    requires forall e :: e in es && e.key == key ==> e.fault.Healthy?
    ensures var r' := EmitAll(r, es);
            && Events(r'.streams, key) ==
               Events(r.streams, key) + Stamp(|Events(r.streams, key)|, PayloadsFor(es, key))
            && !CacheWrong(r', key)
    decreases |es|
  {
    if es != [] {
      var e := es[0];
      RightStep(r, e, key);
      var s := Events(r.streams, key);
      var more := if e.key == key then [Stored(|s| + 1, e.payload)] else [];
      RightVersionLosesNothing(Emit(r, e).rec, es[1..], key);
      StampJoin(s, more, e.payload, PayloadsFor(es[1..], key));
    }
  }

  // ---- A recorder without a cache ----

  /** The reference: re-read the stream length on every emit. */
  function UncachedEmit<E>(streams: Streams<E>, e: Emission<E>): Streams<E> {
    if e.fault.Healthy? || e.fault.SaveUnacknowledged? then
      Append(streams, e.key, |Events(streams, e.key)| + 1, e.payload)
    else streams
  }

  function UncachedAll<E>(streams: Streams<E>, es: seq<Emission<E>>): Streams<E>
    decreases |es|
  {
    if es == [] then streams else UncachedAll(UncachedEmit(streams, es[0]), es[1..])
  }

  /** The streams on which a failed event creation has not yet been followed by a failed save. */
  function PendingAfter<E>(pending: set<string>, e: Emission<E>): set<string> {
    if e.fault.CreateFails? then pending + {e.key}
    else if e.fault.SaveFails? then pending - {e.key}
    else pending
  }

  /** No event is sent on a pending stream. */
  predicate CreationFailuresAbsorbed<E>(es: seq<Emission<E>>, pending: set<string>)
    decreases |es|
  {
    es == [] ||
    (&& (es[0].fault.CreateFails? || es[0].fault.SaveFails? || es[0].key !in pending)
     && CreationFailuresAbsorbed(es[1..], PendingAfter(pending, es[0])))
  }

  ghost predicate WrongOnlyIn<E>(r: RecState<E>, pending: set<string>) {
    forall k :: CacheWrong(r, k) ==> k in pending
  }

  ghost predicate SameStreams<E>(a: Streams<E>, b: Streams<E>) {
    forall k :: Events(a, k) == Events(b, k)
  }

  ghost predicate NoLoadFails<E>(es: seq<Emission<E>>) {
    forall i :: 0 <= i < |es| ==> !es[i].fault.LoadFails?
  }

  lemma {:induction false} PendingStep<E>(r: RecState<E>, e: Emission<E>, pending: set<string>)
    requires Valid(r.versions) && WrongOnlyIn(r, pending)
    ensures WrongOnlyIn(Emit(r, e).rec, PendingAfter(pending, e))
  {
    EmitEffect(r, e);
    var r' := Emit(r, e).rec;
    forall k | CacheWrong(r', k) && k != e.key ensures k in pending {
      EmitFrames(r, e, k);
      assert CacheWrong(r, k);
    }
  }

  lemma {:induction false} SameStep<E>(r: RecState<E>, streams: Streams<E>, e: Emission<E>)
    requires Valid(r.versions) && SameStreams(r.streams, streams)
    requires !e.fault.LoadFails?
    requires (e.fault.Healthy? || e.fault.SaveUnacknowledged?) ==> !CacheWrong(r, e.key)
    ensures SameStreams(Emit(r, e).rec.streams, UncachedEmit(streams, e))
  {
    EmitEffect(r, e);
    forall k | k != e.key ensures Events(Emit(r, e).rec.streams, k) == Events(UncachedEmit(streams, e), k) {
      EmitFrames(r, e, k);
    }
  }

  /** A recorder of any capacity writes exactly what the uncached one writes, through any
      save failures, as long as failed event creations are absorbed. */
  lemma {:induction false} AnyCapacityWritesTheSame<E>(r: RecState<E>, streams: Streams<E>, es: seq<Emission<E>>,
                                                       pending: set<string>)
    requires Valid(r.versions) && WrongOnlyIn(r, pending)
    requires SameStreams(r.streams, streams)
    requires NoLoadFails(es) && CreationFailuresAbsorbed(es, pending)
    ensures SameStreams(EmitAll(r, es).streams, UncachedAll(streams, es))
    decreases |es|
  {
    if es != [] {
      var e := es[0];
      EmitEffect(r, e);
      SameStep(r, streams, e);
      PendingStep(r, e, pending);
      AnyCapacityWritesTheSame(Emit(r, e).rec, UncachedEmit(streams, e), es[1..], PendingAfter(pending, e));
    }
  }

  // ---- The exact condition, for any capacity ----

  /** The pending streams whose version is still cached: an eviction absorbs a failed creation too. */
  function StillPending<E>(r: RecState<E>, e: Emission<E>, pending: set<string>): set<string> {
    PendingAfter(pending, e) * Emit(r, e).rec.versions.entries.Keys
  }

  /** No event is sent on a stream that is still pending. */
  predicate Absorbed<E>(r: RecState<E>, es: seq<Emission<E>>, pending: set<string>)
    decreases |es|
  {
    es == [] ||
    (&& (es[0].fault.CreateFails? || es[0].fault.SaveFails? || es[0].key !in pending)
     && Absorbed(Emit(r, es[0]).rec, es[1..], StillPending(r, es[0], pending)))
  }

  /** The pending streams are exactly those whose cached version has run ahead. */
  ghost predicate AheadExactly<E>(r: RecState<E>, pending: set<string>) {
    && WrongOnlyIn(r, pending)
    && forall k :: k in pending ==> k in r.versions.entries && r.versions.entries[k] > |Events(r.streams, k)|
  }

  lemma {:induction false} AheadStep<E>(r: RecState<E>, e: Emission<E>, pending: set<string>)
    requires Valid(r.versions) && AheadExactly(r, pending)
    requires e.fault.CreateFails? || e.fault.SaveFails? || e.key !in pending
    ensures AheadExactly(Emit(r, e).rec, StillPending(r, e, pending))
  {
    PendingStep(r, e, pending);
    EmitEffect(r, e);
    var r' := Emit(r, e).rec;
    forall k | k in StillPending(r, e, pending) && k != e.key
      ensures k in r'.versions.entries && r'.versions.entries[k] > |Events(r'.streams, k)|
    {
      EmitFrames(r, e, k);
    }
  }

  /** An event lost to a wrong cached version is never made up for. */
  lemma {:induction false} LossIsPermanent<E>(r: RecState<E>, streams: Streams<E>, es: seq<Emission<E>>, key: string)
    requires Valid(r.versions) && NoLoadFails(es)
    requires |Events(r.streams, key)| < |Events(streams, key)|
    ensures |Events(EmitAll(r, es).streams, key)| < |Events(UncachedAll(streams, es), key)|
    decreases |es|
  {
    if es != [] {
      var e := es[0];
      EmitEffect(r, e);
      if e.key != key {
        EmitFrames(r, e, key);
      }
      LossIsPermanent(Emit(r, e).rec, UncachedEmit(streams, e), es[1..], key);
    }
  }

  /** For every capacity the two recorders agree if and only if every failed event creation is
      absorbed, by a failed save or an eviction: the recorder does not reset its version after one. */
  lemma {:induction false} SameStreamsExactlyWhenAbsorbed<E>(r: RecState<E>, streams: Streams<E>,
                                                             es: seq<Emission<E>>, pending: set<string>)
    requires Valid(r.versions) && AheadExactly(r, pending)
    requires SameStreams(r.streams, streams) && NoLoadFails(es)
    ensures SameStreams(EmitAll(r, es).streams, UncachedAll(streams, es)) <==> Absorbed(r, es, pending)
    decreases |es|
  {
    if es != [] {
      var e := es[0];
      EmitEffect(r, e);
      var r1, streams1 := Emit(r, e).rec, UncachedEmit(streams, e);
      if !e.fault.CreateFails? && !e.fault.SaveFails? && e.key in pending {
        LossIsPermanent(r1, streams1, es[1..], e.key);
        assert |Events(EmitAll(r, es).streams, e.key)| != |Events(UncachedAll(streams, es), e.key)|;
      } else {
        AheadStep(r, e, pending);
        SameStep(r, streams, e);
        SameStreamsExactlyWhenAbsorbed(r1, streams1, es[1..], StillPending(r, e, pending));
      }
    }
  }

  /** The loss at an input, for every recorder and stream: after a failed creation the next event, though
      nothing fails for it, is not stored. */
  lemma {:induction false} FailedCreationLosesTheNext<E>(r: RecState<E>, key: string, first: E, second: E)
    requires Valid(r.versions) && !CacheWrong(r, key)
    ensures var es := [Emission(key, first, CreateFails), Emission(key, second, Healthy)];
            var stream := Events(r.streams, key);
            && Events(EmitAll(r, es).streams, key) == stream
            && Events(UncachedAll(r.streams, es), key) == stream + [Stored(|stream| + 1, second)]
  {
    var e1, e2 := Emission(key, first, CreateFails), Emission(key, second, Healthy);
    var r1, streams1 := Emit(r, e1).rec, UncachedEmit(r.streams, e1);
    assert [e1, e2][1..] == [e2] && [e2][1..] == [];
    EmitEffect(r, e1);
    EmitEffect(r1, e2);
    assert EmitAll(r, [e1, e2]) == EmitAll(r1, [e2]) == Emit(r1, e2).rec;
    assert UncachedAll(r.streams, [e1, e2]) == UncachedAll(streams1, [e2]) == UncachedEmit(streams1, e2);
  }

  lemma {:induction false} UnboundedKeepsPending<E>(r: RecState<E>, e: Emission<E>, pending: set<string>)
    requires Valid(r.versions) && r.versions.cap <= 0 && pending <= r.versions.entries.Keys
    requires e.fault.CreateFails? || e.fault.SaveFails? || e.key !in pending
    ensures StillPending(r, e, pending) == PendingAfter(pending, e)
  {
    EmitEffect(r, e);
    forall k | k in PendingAfter(pending, e) ensures k in Emit(r, e).rec.versions.entries {
      if k != e.key {
        EmitFrames(r, e, k);
      }
    }
  }

  /** For a cache that never evicts the condition is one on the emissions alone. */
  lemma {:induction false} UnboundedIsAbsorbedExactlyWhen<E>(r: RecState<E>, es: seq<Emission<E>>, pending: set<string>)
    requires Valid(r.versions) && r.versions.cap <= 0 && pending <= r.versions.entries.Keys
    ensures Absorbed(r, es, pending) <==> CreationFailuresAbsorbed(es, pending)
    decreases |es|
  {
    if es != [] && (es[0].fault.CreateFails? || es[0].fault.SaveFails? || es[0].key !in pending) {
      EmitEffect(r, es[0]);
      UnboundedKeepsPending(r, es[0], pending);
      UnboundedIsAbsorbedExactlyWhen(Emit(r, es[0]).rec, es[1..], PendingAfter(pending, es[0]));
    }
  }

  // ---- Best effort keeps order ----

  ghost predicate Subsequence<E>(a: seq<E>, b: seq<E>)
    decreases |b|
  {
    if a == [] then true
    else if b == [] then false
    else (a[0] == b[0] && Subsequence(a[1..], b[1..])) || Subsequence(a, b[1..])
  }

  lemma {:induction false} SubsequenceAppend<E>(a: seq<E>, b: seq<E>, x: E)
    requires Subsequence(a, b)
    ensures Subsequence(a, b + [x]) && Subsequence(a + [x], b + [x])
    decreases |b|
  {
    if b == [] {
      assert a + [x] == [x] && b + [x] == [x] && [x][1..] == [];
    } else {
      assert (b + [x])[1..] == b[1..] + [x];
      if a == [] {
        SubsequenceAppend(a, b[1..], x);
      } else {
        assert (a + [x])[1..] == a[1..] + [x];
        if a[0] == b[0] && Subsequence(a[1..], b[1..]) {
          SubsequenceAppend(a[1..], b[1..], x);
        } else {
          SubsequenceAppend(a, b[1..], x);
        }
      }
    }
  }
}

/**
 Every interleaving of concurrent emitters on shared streams, other processes writing the
 same streams, store faults and explicit version resets. The mutex makes `nextVersion` and
 `ResetVersion` atomic; event creation, `Save` and the reset after a refused save are
 separate steps.
 */
module RecorderSystem {
  import opened BoundedMaps
  import opened Recorders

  datatype Phase<E> =
    | Resolved(key: string, payload: E, version: nat)
    | Refused(key: string)

  datatype Step<E> =
    | Begin(thread: nat, key: string, payload: E, loadFails: bool)
    | FailCreate(thread: nat)
    | TrySave(thread: nat, fault: Fault)
    | ResetAfterRefusal(thread: nat)
    | OutsideWrite(key: string, payloads: seq<E>)
    | ForgetVersion(key: string)

  /** A thread without a phase is not emitting. */
  datatype Sys<E> = Sys(rec: RecState<E>, phases: map<nat, Phase<E>>)

  ghost predicate Enabled<E>(s: Sys<E>, step: Step<E>) {
    match step
    case Begin(t, _, _, _) => t !in s.phases
    case FailCreate(t) => t in s.phases && s.phases[t].Resolved?
    case TrySave(t, _) => t in s.phases && s.phases[t].Resolved?
    case ResetAfterRefusal(t) => t in s.phases && s.phases[t].Refused?
    case OutsideWrite(_, _) => true
    case ForgetVersion(_) => true
  }

  ghost function Next<E>(s: Sys<E>, step: Step<E>): Sys<E>
    requires Enabled(s, step)
  {
    match step
    case Begin(t, key, payload, loadFails) =>
      var res := Resolve(s.rec, key, loadFails);
      Sys(res.rec, if res.version == 0 then s.phases else s.phases[t := Resolved(key, payload, res.version)])
    case FailCreate(t) =>
      s.(phases := s.phases - {t})
    case TrySave(t, fault) =>
      var Resolved(key, payload, version) := s.phases[t];
      Sys(Save(s.rec, key, version, payload, fault),
          if SaveOk(s.rec, key, version, fault) then s.phases - {t} else s.phases[t := Refused(key)])
    case ResetAfterRefusal(t) =>
      Sys(Reset(s.rec, s.phases[t].key), s.phases - {t})
    case OutsideWrite(key, payloads) =>
      var was := Events(s.rec.streams, key);
      s.(rec := s.rec.(streams := s.rec.streams[key := was + Stamp(|was|, payloads)]))
    case ForgetVersion(key) =>
      s.(rec := Reset(s.rec, key))
  }

  ghost predicate Enables<E>(s: Sys<E>, steps: seq<Step<E>>)
    decreases |steps|
  {
    steps == [] || (Enabled(s, steps[0]) && Enables(Next(s, steps[0]), steps[1..]))
  }

  ghost function After<E>(s: Sys<E>, steps: seq<Step<E>>): Sys<E>
    requires Enables(s, steps)
    decreases |steps|
  {
    if steps == [] then s else After(Next(s, steps[0]), steps[1..])
  }

  /** The event at position i carries version i + 1. */
  ghost predicate NumberedStream<E>(stream: seq<Stored<E>>) {
    forall i :: 0 <= i < |stream| ==> stream[i].version == i + 1
  }

  ghost predicate Numbered<E>(streams: Streams<E>) {
    forall key :: NumberedStream(Events(streams, key))
  }

  /** Streams only grow, and what was stored stays where it was. */
  ghost predicate Extends<E>(before: Streams<E>, after: Streams<E>) {
    forall key :: Events(before, key) <= Events(after, key)
  }

  lemma {:induction false} StampNumbers<E>(base: nat, ps: seq<E>, i: nat)
    requires i < |ps|
    ensures Stamp(base, ps)[i].version == base + i + 1
    decreases i
  {
    if i > 0 {
      StampNumbers(base + 1, ps[1..], i - 1);
    }
  }

  lemma {:induction false} StampContinues<E>(stream: seq<Stored<E>>, ps: seq<E>)
    requires NumberedStream(stream)
    ensures NumberedStream(stream + Stamp(|stream|, ps))
  {
    forall i | 0 <= i < |ps| ensures Stamp(|stream|, ps)[i].version == |stream| + i + 1 {
      StampNumbers(|stream|, ps, i);
    }
  }

  lemma {:induction false} StepKeepsStreams<E>(s: Sys<E>, step: Step<E>)
    requires Enabled(s, step)
    requires Numbered(s.rec.streams) && Valid(s.rec.versions)
    ensures var s' := Next(s, step);
            Numbered(s'.rec.streams) && Valid(s'.rec.versions) && Extends(s.rec.streams, s'.rec.streams)
  {
    match step
    case Begin(t, key, payload, loadFails) => ResolveEffect(s.rec, key, loadFails);
    case FailCreate(t) =>
    case TrySave(t, fault) =>
      var s' := Next(s, step);
      forall key ensures NumberedStream(Events(s'.rec.streams, key)) {
        assert NumberedStream(Events(s.rec.streams, key));
      }
    case ResetAfterRefusal(t) => ResetEffect(s.rec, s.phases[t].key);
    case OutsideWrite(key, payloads) =>
      var s' := Next(s, step);
      forall k ensures NumberedStream(Events(s'.rec.streams, k)) {
        assert NumberedStream(Events(s.rec.streams, k));
        StampContinues(Events(s.rec.streams, k), payloads);
      }
    case ForgetVersion(key) => ResetEffect(s.rec, key);
  }

  /** Whatever the interleaving and the faults, every stream stays numbered 1..n and no
      stored event is overwritten, moved or lost. */
  lemma {:induction false} RunsKeepStreamsNumbered<E>(s: Sys<E>, steps: seq<Step<E>>)
    requires Enables(s, steps)
    requires Numbered(s.rec.streams) && Valid(s.rec.versions)
    ensures var s' := After(s, steps);
            Numbered(s'.rec.streams) && Valid(s'.rec.versions) && Extends(s.rec.streams, s'.rec.streams)
    decreases |steps|
  {
    if steps != [] {
      StepKeepsStreams(s, steps[0]);
      RunsKeepStreamsNumbered(Next(s, steps[0]), steps[1..]);
      var mid, end := Next(s, steps[0]), After(s, steps);
      forall key ensures Events(s.rec.streams, key) <= Events(end.rec.streams, key) {
        assert Events(s.rec.streams, key) <= Events(mid.rec.streams, key) <= Events(end.rec.streams, key);
      }
    }
  }

  // ---- An emit that nobody interrupts ----

  /** The steps of one emit under a fault, from this state of the recorder. */
  ghost function EmitSteps<E>(r: RecState<E>, t: nat, e: Emission<E>): seq<Step<E>> {
    var res := Resolve(r, e.key, e.fault.LoadFails?);
    [Begin(t, e.key, e.payload, e.fault.LoadFails?)] +
    if res.version == 0 then []
    else if e.fault.CreateFails? then [FailCreate(t)]
    else if SaveOk(res.rec, e.key, res.version, e.fault) then [TrySave(t, e.fault)]
    else [TrySave(t, e.fault), ResetAfterRefusal(t)]
  }

  lemma {:induction false} OneStep<E>(s: Sys<E>, step: Step<E>, rest: seq<Step<E>>)
    requires Enabled(s, step) && Enables(Next(s, step), rest)
    ensures Enables(s, [step] + rest) && After(s, [step] + rest) == After(Next(s, step), rest)
  {
    assert ([step] + rest)[1..] == rest;
  }

  /** Uninterrupted, the steps of an emit are the emit: whatever fails, the same streams and versions, and
      nobody else's phase changes. */
  lemma {:induction false} UninterruptedStepsAreTheEmit<E>(s: Sys<E>, t: nat, e: Emission<E>)
    requires t !in s.phases
    ensures Enables(s, EmitSteps(s.rec, t, e))
    ensures After(s, EmitSteps(s.rec, t, e)) == Sys(Emit(s.rec, e).rec, s.phases)
  {
    var begin := Begin(t, e.key, e.payload, e.fault.LoadFails?);
    var res := Resolve(s.rec, e.key, e.fault.LoadFails?);
    var s1 := Next(s, begin);
    if res.version == 0 {
      OneStep(s, begin, []);
    } else if e.fault.CreateFails? {
      OneStep(s1, FailCreate(t), []);
      OneStep(s, begin, [FailCreate(t)]);
      assert s1.phases - {t} == s.phases;
    } else {
      var s2 := Next(s1, TrySave(t, e.fault));
      if SaveOk(res.rec, e.key, res.version, e.fault) {
        OneStep(s1, TrySave(t, e.fault), []);
        OneStep(s, begin, [TrySave(t, e.fault)]);
        assert s2.phases == s.phases;
      } else {
        OneStep(s2, ResetAfterRefusal(t), []);
        OneStep(s1, TrySave(t, e.fault), [ResetAfterRefusal(t)]);
        OneStep(s, begin, [TrySave(t, e.fault), ResetAfterRefusal(t)]);
        assert s2.phases - {t} == s.phases;
      }
    }
  }

  // ---- Emits that are sequential on one stream ----

  /** No emitter is under way on the stream. */
  ghost predicate Quiet<E>(s: Sys<E>, key: string) {
    forall t :: t in s.phases ==> s.phases[t].key != key
  }

  /** On this stream emits come one after the other and the store is healthy; emitters on other
      streams, outside writers of them, evictions and resets are free. */
  ghost predicate CalmStep<E>(s: Sys<E>, step: Step<E>, key: string)
    requires Enabled(s, step)
  {
    match step
    case Begin(_, k, _, loadFails) => k == key ==> Quiet(s, key) && !loadFails
    case FailCreate(t) => s.phases[t].key != key
    case TrySave(t, fault) => s.phases[t].key == key ==> fault.Healthy?
    case OutsideWrite(k, _) => k != key
    case _ => true
  }

  ghost predicate Calm<E>(s: Sys<E>, steps: seq<Step<E>>, key: string)
    requires Enables(s, steps)
    decreases |steps|
  {
    steps == [] || (CalmStep(s, steps[0], key) && Calm(Next(s, steps[0]), steps[1..], key))
  }

  /** The payloads whose emit on the stream begins in the run. */
  function Begun<E>(steps: seq<Step<E>>, key: string): seq<E> {
    if steps == [] then []
    else if steps[0].Begin? && steps[0].key == key then [steps[0].payload] + Begun(steps[1..], key)
    else Begun(steps[1..], key)
  }

  /** `t` is the only emitter on the stream, with a version that the cache, if it knows one, agrees with. */
  ghost predicate Only<E>(s: Sys<E>, key: string, t: nat) {
    && t in s.phases && s.phases[t].key == key
    && (forall u :: u in s.phases && s.phases[u].key == key ==> u == t)
    && (s.phases[t].Resolved? && key in s.rec.versions.entries ==> s.rec.versions.entries[key] == s.phases[t].version)
  }

  /** How far the emits on the stream have got: none under way, one about to be saved with a version
      that fits or does not, or one refused and about to be reset. */
  datatype Stage<E> = Fits | Stale | Fitting(payload: E) | Misfit | Spent

  ghost predicate At<E>(s: Sys<E>, key: string, st: Stage<E>) {
    && Valid(s.rec.versions)
    && match st
       case Fits => Quiet(s, key) && !CacheWrong(s.rec, key)
       case Stale => Quiet(s, key) && CacheWrong(s.rec, key)
       case Fitting(p) =>
         exists t :: Only(s, key, t) && s.phases[t] == Resolved(key, p, |Events(s.rec.streams, key)| + 1)
       case Misfit =>
         exists t :: Only(s, key, t) && s.phases[t].Resolved? && !Accepts(s.rec, key, s.phases[t].version)
       case Spent => exists t :: Only(s, key, t) && s.phases[t].Refused?
  }

  /** The stream as it will be once the emit under way, if its version fits, is saved. */
  ghost function Foreseen<E>(s: Sys<E>, key: string, st: Stage<E>): seq<Stored<E>> {
    var stream := Events(s.rec.streams, key);
    stream + (if st.Fitting? then [Stored(|stream| + 1, st.payload)] else [])
  }

  /** A step that is not about the stream leaves its stage, but may evict a stale version. */
  ghost predicate Elsewhere<E>(s: Sys<E>, s': Sys<E>, key: string) {
    && Valid(s'.rec.versions)
    && Events(s'.rec.streams, key) == Events(s.rec.streams, key)
    && CacheFrames(s.rec.versions, s'.rec.versions, key)
    && (forall t :: t in s.phases && s.phases[t].key == key ==> t in s'.phases && s'.phases[t] == s.phases[t])
    && (forall t :: t in s'.phases && s'.phases[t].key == key ==> t in s.phases && s.phases[t] == s'.phases[t])
  }

  /** The stream that the step is about; `key` for a step of an emitter on it. */
  ghost predicate About<E>(s: Sys<E>, step: Step<E>, key: string)
    requires Enabled(s, step)
  {
    match step
    case Begin(_, k, _, _) => k == key
    case FailCreate(t) => s.phases[t].key == key
    case TrySave(t, _) => s.phases[t].key == key
    case ResetAfterRefusal(t) => s.phases[t].key == key
    case OutsideWrite(k, _) => k == key
    case ForgetVersion(k) => k == key
  }

  lemma {:induction false} OtherStepsAreElsewhere<E>(s: Sys<E>, step: Step<E>, key: string)
    requires Enabled(s, step) && Valid(s.rec.versions) && !About(s, step, key)
    ensures Elsewhere(s, Next(s, step), key)
  {
    match step
    case Begin(t, k, payload, loadFails) =>
      ResolveEffect(s.rec, k, loadFails);
      assert CacheFrames(s.rec.versions, Next(s, step).rec.versions, key);
    case ResetAfterRefusal(t) =>
      ResetEffect(s.rec, s.phases[t].key);
      assert CacheFrames(s.rec.versions, Next(s, step).rec.versions, key);
    case ForgetVersion(k) =>
      ResetEffect(s.rec, k);
      assert CacheFrames(s.rec.versions, Next(s, step).rec.versions, key);
    case _ =>
  }

  lemma {:induction false} OnlyElsewhere<E>(s: Sys<E>, s': Sys<E>, key: string, t: nat)
    requires Elsewhere(s, s', key) && Only(s, key, t)
    ensures Only(s', key, t) && s'.phases[t] == s.phases[t]
  {
  }

  /** The stage after a step elsewhere. */
  ghost function StageElsewhere<E>(s': Sys<E>, key: string, st: Stage<E>): Stage<E> {
    if st.Stale? && !CacheWrong(s'.rec, key) then Fits else st
  }

  lemma {:induction false} ElsewhereKeepsStage<E>(s: Sys<E>, s': Sys<E>, key: string, st: Stage<E>)
    requires Elsewhere(s, s', key) && At(s, key, st)
    ensures At(s', key, StageElsewhere(s', key, st))
  {
    if st.Fitting? {
      var t :| Only(s, key, t) && s.phases[t] == Resolved(key, st.payload, |Events(s.rec.streams, key)| + 1);
      OnlyElsewhere(s, s', key, t);
    } else if st.Misfit? {
      var t :| Only(s, key, t) && s.phases[t].Resolved? && !Accepts(s.rec, key, s.phases[t].version);
      OnlyElsewhere(s, s', key, t);
    } else if st.Spent? {
      var t :| Only(s, key, t) && s.phases[t].Refused?;
      OnlyElsewhere(s, s', key, t);
    }
  }

  lemma {:induction false} BeginStage<E>(s: Sys<E>, step: Step<E>, key: string, st: Stage<E>) returns (st': Stage<E>)
    requires Enabled(s, step) && CalmStep(s, step, key) && At(s, key, st) && step.Begin? && step.key == key
    ensures st.Fits? || st.Stale?
    ensures st' == if st.Fits? then Fitting(step.payload) else Misfit
    ensures At(Next(s, step), key, st') && Events(Next(s, step).rec.streams, key) == Events(s.rec.streams, key)
  {
    ResolveEffect(s.rec, key, false);
    var s' := Next(s, step);
    st' := if st.Fits? then Fitting(step.payload) else Misfit;
    assert Only(s', key, step.thread);
  }

  lemma {:induction false} SaveStage<E>(s: Sys<E>, step: Step<E>, key: string, st: Stage<E>) returns (st': Stage<E>)
    requires Enabled(s, step) && CalmStep(s, step, key) && At(s, key, st)
    requires step.TrySave? && s.phases[step.thread].key == key
    ensures st.Fitting? || st.Misfit?
    ensures st' == if st.Fitting? then Fits else Spent
    ensures At(Next(s, step), key, st')
    ensures Events(Next(s, step).rec.streams, key) == Foreseen(s, key, st)
  {
    var t := step.thread;
    var s' := Next(s, step);
    st' := if st.Fitting? then Fits else Spent;
    assert Only(s, key, t);
    if st.Misfit? {
      assert Only(s', key, t);
    }
  }

  lemma {:induction false} ForgetStage<E>(s: Sys<E>, step: Step<E>, key: string, st: Stage<E>) returns (st': Stage<E>)
    requires Enabled(s, step) && At(s, key, st)
    requires step == ForgetVersion(key) || (step.ResetAfterRefusal? && s.phases[step.thread].key == key)
    ensures st' == if st.Stale? || step.ResetAfterRefusal? then Fits else st
    ensures At(Next(s, step), key, st') && Events(Next(s, step).rec.streams, key) == Events(s.rec.streams, key)
    ensures step.ResetAfterRefusal? ==> st.Spent?
  {
    ResetEffect(s.rec, key);
    var s' := Next(s, step);
    st' := if st.Stale? || step.ResetAfterRefusal? then Fits else st;
    if step.ForgetVersion? && (st.Fitting? || st.Misfit? || st.Spent?) {
      var t :| Only(s, key, t)
               && (st.Fitting? ==> s.phases[t] == Resolved(key, st.payload, |Events(s.rec.streams, key)| + 1))
               && (st.Misfit? ==> s.phases[t].Resolved? && !Accepts(s.rec, key, s.phases[t].version))
               && (st.Spent? ==> s.phases[t].Refused?);
      assert Only(s', key, t);
    }
  }

  /** What the step begins on the stream. */
  function BegunBy<E>(step: Step<E>, key: string): seq<E> {
    if step.Begin? && step.key == key then [step.payload] else []
  }

  /** A stale version costs the first event begun; apart from that every event begun is foreseen. */
  ghost predicate Accounts<E>(s: Sys<E>, s': Sys<E>, key: string, st: Stage<E>, st': Stage<E>, begun: seq<E>) {
    var was, now := Foreseen(s, key, st), Foreseen(s', key, st');
    && (!st.Stale? || begun != [] ==> !st'.Stale?)
    && now == if st.Stale? && begun != [] then was else was + Stamp(|was|, begun)
  }

  lemma {:induction false} NothingBegun<E>(s: Sys<E>, s': Sys<E>, key: string, st: Stage<E>, st': Stage<E>)
    requires Foreseen(s', key, st') == Foreseen(s, key, st) && (!st.Stale? ==> !st'.Stale?)
    ensures Accounts(s, s', key, st, st', [])
  {
    var was := Foreseen(s, key, st);
    assert was + Stamp<E>(|was|, []) == was;
  }

  lemma {:induction false} ElsewhereAccounts<E>(s: Sys<E>, step: Step<E>, key: string, st: Stage<E>) returns (st': Stage<E>)
    requires Enabled(s, step) && !About(s, step, key) && At(s, key, st)
    ensures At(Next(s, step), key, st') && Accounts(s, Next(s, step), key, st, st', [])
  {
    var s' := Next(s, step);
    OtherStepsAreElsewhere(s, step, key);
    ElsewhereKeepsStage(s, s', key, st);
    st' := StageElsewhere(s', key, st);
    NothingBegun(s, s', key, st, st');
  }

  lemma {:induction false} BeginAccounts<E>(s: Sys<E>, step: Step<E>, key: string, st: Stage<E>) returns (st': Stage<E>)
    requires Enabled(s, step) && CalmStep(s, step, key) && At(s, key, st) && step.Begin? && step.key == key
    ensures At(Next(s, step), key, st') && Accounts(s, Next(s, step), key, st, st', [step.payload])
  {
    st' := BeginStage(s, step, key, st);
    assert [step.payload][1..] == [];
  }

  /** Every calm step of the stream that begins nothing moves a foreseen event into it, or resets. */
  lemma {:induction false} EndAccounts<E>(s: Sys<E>, step: Step<E>, key: string, st: Stage<E>) returns (st': Stage<E>)
    requires Enabled(s, step) && CalmStep(s, step, key) && At(s, key, st) && About(s, step, key) && !step.Begin?
    ensures At(Next(s, step), key, st') && Accounts(s, Next(s, step), key, st, st', [])
  {
    if step.TrySave? {
      st' := SaveStage(s, step, key, st);
    } else {
      st' := ForgetStage(s, step, key, st);
    }
    NothingBegun(s, Next(s, step), key, st, st');
  }

  lemma {:induction false} CalmStepAccounts<E>(s: Sys<E>, step: Step<E>, key: string, st: Stage<E>) returns (st': Stage<E>)
    requires Enabled(s, step) && CalmStep(s, step, key) && At(s, key, st)
    ensures At(Next(s, step), key, st')
    ensures Accounts(s, Next(s, step), key, st, st', BegunBy(step, key))
  {
    if !About(s, step, key) {
      st' := ElsewhereAccounts(s, step, key, st);
    } else if step.Begin? {
      st' := BeginAccounts(s, step, key, st);
    } else {
      st' := EndAccounts(s, step, key, st);
    }
  }

  /** What a run of calm steps foresees of what it began. */
  ghost predicate RunAccounts<E>(s: Sys<E>, s': Sys<E>, key: string, st: Stage<E>, st': Stage<E>, begun: seq<E>) {
    var was, now := Foreseen(s, key, st), Foreseen(s', key, st');
    && (!st.Stale? || begun != [] ==> !st'.Stale?)
    && (|| now == was + Stamp(|was|, begun)
        || (st.Stale? && begun != [] && now == was + Stamp(|was|, begun[1..])))
  }

  lemma {:induction false} AccountsThen<E>(s: Sys<E>, mid: Sys<E>, end: Sys<E>, key: string, st: Stage<E>, st1: Stage<E>,
                                           st2: Stage<E>, first: seq<E>, rest: seq<E>)
    requires Accounts(s, mid, key, st, st1, first) && RunAccounts(mid, end, key, st1, st2, rest) && |first| <= 1
    ensures RunAccounts(s, end, key, st, st2, first + rest)
  {
    var was := Foreseen(s, key, st);
    if first == [] {
      assert first + rest == rest && was + Stamp(|was|, first) == was;
    } else if st.Stale? {
      assert (first + rest)[1..] == rest;
    } else {
      assert first == [first[0]];
      StampExtend(|was|, first[0], []);
      StampJoin(was, [Stored(|was| + 1, first[0])], first[0], rest);
    }
  }

  lemma {:induction false} CalmRunAccounts<E>(s: Sys<E>, steps: seq<Step<E>>, key: string, st: Stage<E>)
    returns (st': Stage<E>)
    requires Enables(s, steps) && Calm(s, steps, key) && At(s, key, st)
    ensures At(After(s, steps), key, st')
    ensures RunAccounts(s, After(s, steps), key, st, st', Begun(steps, key))
    decreases |steps|
  {
    if steps == [] {
      st' := st;
      var was := Foreseen(s, key, st);
      assert was + Stamp<E>(|was|, []) == was;
    } else {
      var mid := Next(s, steps[0]);
      var st1 := CalmStepAccounts(s, steps[0], key, st);
      st' := CalmRunAccounts(mid, steps[1..], key, st1);
      AccountsThen(s, mid, After(s, steps), key, st, st1, st', BegunBy(steps[0], key), Begun(steps[1..], key));
      assert BegunBy(steps[0], key) + Begun(steps[1..], key) == Begun(steps, key);
    }
  }

  /** From any state without an emitter on the stream: once emits on it are sequential and the store
      healthy for it, at most the first of them is lost, and only if the cached version was wrong;
      emitters on other streams, under way or yet to begin, interleave and fail as they like. */
  lemma {:induction false} WrongVersionCostsOneEvent<E>(s: Sys<E>, steps: seq<Step<E>>, key: string)
    requires Valid(s.rec.versions) && Quiet(s, key) && Enables(s, steps) && Calm(s, steps, key)
    requires Quiet(After(s, steps), key)
    ensures var end := After(s, steps);
            var was, now, ps := Events(s.rec.streams, key), Events(end.rec.streams, key), Begun(steps, key);
            && (|| now == was + Stamp(|was|, ps)
                || (CacheWrong(s.rec, key) && ps != [] && now == was + Stamp(|was|, ps[1..])))
            && (ps != [] ==> !CacheWrong(end.rec, key))
  {
    var st := if CacheWrong(s.rec, key) then Stale else Fits;
    var st' := CalmRunAccounts(s, steps, key, st);
    var end := After(s, steps);
    assert st'.Fits? || st'.Stale?;
    assert Foreseen(s, key, st) == Events(s.rec.streams, key);
    assert Foreseen(end, key, st') == Events(end.rec.streams, key);
  }
}

/** The store and the recorder as objects, in the source's imperative form. */
module RecorderObjects {
  import opened BoundedMaps
  import opened BoundedMapObjects
  import opened Recorders

  class EventStore<E> {
    var streams: Streams<E>

    constructor ()
      ensures streams == map[]
    {
      streams := map[];
    }

    method Load(key: string, fails: bool) returns (events: seq<Stored<E>>, ok: bool)
      ensures ok == !fails
      ensures ok ==> events == Events(streams, key)
    {
      events, ok := [], !fails;
      if ok && key in streams {
        events := streams[key];
      }
    }

    /** Appends if and only if the stream has the expected length and the write reaches it. */
    method Save(key: string, event: Stored<E>, expected: nat, fault: Fault) returns (ok: bool)
      modifies this
      ensures streams == if |Events(old(streams), key)| == expected && !fault.SaveFails?
                         then old(streams)[key := Events(old(streams), key) + [event]] else old(streams)
      ensures ok <==> |Events(old(streams), key)| == expected && !fault.SaveFails? && !fault.SaveUnacknowledged?
    {
      var stream := Events(streams, key);
      if |stream| != expected || fault.SaveFails? {
        return false;
      }
      streams := streams[key := stream + [event]];
      ok := !fault.SaveUnacknowledged?;
    }
  }

  class Recorder<E> {
    const store: EventStore<E>
    const versions: BoundedMap<nat>
    const strict: bool

    ghost function View(): RecState<E>
      reads store, versions
    {
      RecState(store.streams, versions.View())
    }

    constructor (store: EventStore<E>, versionCapacity: int, strict: bool)
      ensures this.store == store && this.strict == strict && fresh(versions)
      ensures View() == RecState(store.streams, Empty(versionCapacity))
    {
      this.store := store;
      this.versions := new BoundedMap<nat>(versionCapacity);
      this.strict := strict;
    }

    method NextVersion(key: string, loadFails: bool) returns (version: nat)
      modifies versions
      ensures var res := Resolve(old(View()), key, loadFails); View() == res.rec && version == res.version
    {
      var v, ok := versions.Get(key, 0);
      if ok {
        versions.Put(key, v + 1);
        return v + 1;
      }
      var existing, loaded := store.Load(key, loadFails);
      if !loaded {
        return 0;
      }
      versions.Put(key, |existing| + 1);
      return |existing| + 1;
    }

    method ResetVersion(key: string)
      modifies versions
      ensures View() == Reset(old(View()), key)
    {
      versions.Delete(key);
    }

    /** Best effort unless strict: an error reaches the caller only in strict mode. */
    method EmitEvent(key: string, payload: E, fault: Fault) returns (failed: bool)
      modifies store, versions
      ensures var res := Emit(old(View()), Emission(key, payload, fault));
              View() == res.rec && failed == (strict && !res.recorded)
    {
      var version := NextVersion(key, fault.LoadFails?);
      if version == 0 {
        return strict;
      }
      if fault.CreateFails? {
        return strict;
      }
      var ok := store.Save(key, Stored(version, payload), version - 1, fault);
      if !ok {
        ResetVersion(key);
        return strict;
      }
      return false;
    }
  }
}
