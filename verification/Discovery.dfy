/**
 Stream discovery (benchkit/runner_discovery.go): which streams a journal holds, found by one scan
 or page by page through the journal's read-after-position operation.
 */
module Discoveries {

  const DISCOVERY_BATCH_SIZE := 1000

  datatype Event = Event(id: string, streamType: string, streamId: string)

  datatype StreamRef = StreamRef(streamType: string, streamId: string)

  function RefOf(e: Event): StreamRef {
    StreamRef(e.streamType, e.streamId)
  }

  // ---- What discovery should find ----

  function StreamIds(h: seq<Event>): set<string> {
    set i | 0 <= i < |h| :: h[i].streamId
  }

  /** One ref per stream id, in the order in which the ids first appear. */
  function FirstSeen(h: seq<Event>): seq<StreamRef> {
    if h == [] then []
    else
      var front, last := h[..|h| - 1], h[|h| - 1];
      if last.streamId in StreamIds(front) then FirstSeen(front) else FirstSeen(front) + [RefOf(last)]
  }

  function Capped<T>(s: seq<T>, limit: int): seq<T> {
    if limit <= 0 then [] else if |s| <= limit then s else s[..limit]
  }

  /** All of them if there are at most `limit`, else the first `limit`. */
  ghost predicate FirstOnes<T>(s: seq<T>, limit: nat, r: seq<T>) {
    r <= s && |r| == if |s| < limit then |s| else limit
  }

  lemma {:induction false} CappedAreFirstOnes<T>(s: seq<T>, limit: nat)
    ensures FirstOnes(s, limit, Capped(s, limit))
  {
  }

  function IdsOf(refs: seq<StreamRef>): (ids: seq<string>)
    ensures |ids| == |refs|
    ensures forall k :: 0 <= k < |refs| ==> ids[k] == refs[k].streamId
  {
    seq(|refs|, k requires 0 <= k < |refs| => refs[k].streamId)
  }

  lemma {:induction false} StreamIdsStep(h: seq<Event>, e: Event)
    ensures StreamIds(h + [e]) == StreamIds(h) + {e.streamId}
  {
    var after := h + [e];
    assert after[|h|] == e;
    assert forall i :: 0 <= i < |h| ==> after[i] == h[i];
  }

  lemma {:induction false} FirstSeenStep(h: seq<Event>, e: Event)
    ensures FirstSeen(h + [e]) == if e.streamId in StreamIds(h) then FirstSeen(h) else FirstSeen(h) + [RefOf(e)]
  {
    assert (h + [e])[..|h|] == h;
  }

  /** Nobody before position i has its stream id. */
  ghost predicate IsFirst(h: seq<Event>, i: int)
    requires 0 <= i < |h|
  {
    forall j :: 0 <= j < i ==> h[j].streamId != h[i].streamId
  }

  /** `at` lists, in order, the positions that are first with their stream id. */
  ghost predicate FirstOccurrences(h: seq<Event>, at: seq<int>) {
    && (forall k :: 0 <= k < |at| ==> 0 <= at[k] < |h|)
    && (forall j, k :: 0 <= j < k < |at| ==> at[j] < at[k])
    && (forall i :: 0 <= i < |h| ==> (i in at <==> IsFirst(h, i)))
  }

  lemma {:induction false} IsFirstStep(h: seq<Event>, e: Event, i: int)
    requires 0 <= i <= |h|
    ensures IsFirst(h + [e], i) <==> if i < |h| then IsFirst(h, i) else e.streamId !in StreamIds(h)
  {
    var g := h + [e];
    assert forall j :: 0 <= j < |h| ==> g[j] == h[j] && h[j].streamId in StreamIds(h);
  }

  lemma {:induction false} FirstOccurrencesStep(h: seq<Event>, e: Event, at: seq<int>)
    requires FirstOccurrences(h, at)
    ensures FirstOccurrences(h + [e], if e.streamId in StreamIds(h) then at else at + [|h|])
  {
    var now := if e.streamId in StreamIds(h) then at else at + [|h|];
    forall i | 0 <= i < |h + [e]| ensures i in now <==> IsFirst(h + [e], i) {
      IsFirstStep(h, e, i);
    }
  }

  /** The refs of the events at these positions. */
  function RefsAt(h: seq<Event>, at: seq<int>): (refs: seq<StreamRef>)
    requires forall k :: 0 <= k < |at| ==> 0 <= at[k] < |h|
    ensures |refs| == |at|
  {
    seq(|at|, k requires 0 <= k < |at| => RefOf(h[at[k]]))
  }

  /** These refs are those of the events that are first with their stream id, in journal order. */
  ghost predicate Lists(h: seq<Event>, at: seq<int>, refs: seq<StreamRef>) {
    FirstOccurrences(h, at) && refs == RefsAt(h, at)
  }

  lemma {:induction false} ListsStep(h: seq<Event>, e: Event, at: seq<int>, refs: seq<StreamRef>)
    requires Lists(h, at, refs)
    ensures if e.streamId in StreamIds(h) then Lists(h + [e], at, refs)
            else Lists(h + [e], at + [|h|], refs + [RefOf(e)])
  {
    FirstOccurrencesStep(h, e, at);
    if e.streamId in StreamIds(h) {
      assert RefsAt(h + [e], at) == refs;
    } else {
      assert RefsAt(h + [e], at + [|h|]) == refs + [RefOf(e)];
    }
  }

  /** `FirstSeen` lists exactly the events that are the first of their stream id, in journal order. */
  lemma {:induction false} FirstSeenIsExact(h: seq<Event>) returns (at: seq<int>)
    ensures Lists(h, at, FirstSeen(h))
    decreases |h|
  {
    if h == [] {
      at := [];
    } else {
      var front, last := h[..|h| - 1], h[|h| - 1];
      at := FirstSeenIsExact(front);
      ListsStep(front, last, at, FirstSeen(front));
      assert front + [last] == h;
      if last.streamId !in StreamIds(front) {
        at := at + [|front|];
      }
    }
  }

  /** No two events share a stream id under different stream types. */
  ghost predicate IdsDetermineTypes(h: seq<Event>) {
    forall i, j :: 0 <= i < |h| && 0 <= j < |h| && h[i].streamId == h[j].streamId ==> h[i].streamType == h[j].streamType
  }

  ghost predicate EveryRefListed(h: seq<Event>) {
    forall i :: 0 <= i < |h| ==> RefOf(h[i]) in FirstSeen(h)
  }

  /** Every event shares its stream id with a listed ref. */
  lemma {:induction false} EveryIdIsListed(h: seq<Event>, i: int) returns (j: int)
    requires 0 <= i < |h|
    ensures 0 <= j <= i && h[j].streamId == h[i].streamId && RefOf(h[j]) in FirstSeen(h)
    decreases i
  {
    if k :| 0 <= k < i && h[k].streamId == h[i].streamId {
      j := EveryIdIsListed(h, k);
    } else {
      var at := FirstSeenIsExact(h);
      assert IsFirst(h, i);
      var k :| 0 <= k < |at| && at[k] == i;
      assert RefsAt(h, at)[k] == RefOf(h[i]);
      j := i;
    }
  }

  /** No two listed refs share a stream id. */
  lemma {:induction false} ListedOnce(h: seq<Event>, r: StreamRef, s: StreamRef)
    requires r in FirstSeen(h) && s in FirstSeen(h) && r.streamId == s.streamId
    ensures r == s
  {
    var at := FirstSeenIsExact(h);
    var j :| 0 <= j < |at| && RefsAt(h, at)[j] == r;
    var k :| 0 <= k < |at| && RefsAt(h, at)[k] == s;
    assert IsFirst(h, at[j]) && IsFirst(h, at[k]);
  }

  /**
   The seen-set is keyed by stream id alone, so without a cap every stream of the journal is
   discovered exactly when no id is used under two stream types.
   */
  lemma {:induction false} EveryStreamIsFoundExactlyWhen(h: seq<Event>)
    ensures EveryRefListed(h) <==> IdsDetermineTypes(h)
  {
    if IdsDetermineTypes(h) {
      forall i | 0 <= i < |h| ensures RefOf(h[i]) in FirstSeen(h) {
        var j := EveryIdIsListed(h, i);
        assert RefOf(h[i]) == RefOf(h[j]);
      }
    }
    if EveryRefListed(h) {
      forall i, j | 0 <= i < |h| && 0 <= j < |h| && h[i].streamId == h[j].streamId
        ensures h[i].streamType == h[j].streamType
      {
        ListedOnce(h, RefOf(h[i]), RefOf(h[j]));
      }
    }
  }

  /** Of two streams of different types that share an id, the second is not found. */
  lemma {:induction false} SharedIdHidesAStream(first: Event, second: Event)
    requires first.streamId == second.streamId && first.streamType != second.streamType
    ensures FirstSeen([first, second]) == [RefOf(first)] && RefOf(second) !in FirstSeen([first, second])
  {
    assert [first, second][..1] == [first] && [first][..0] == [];
    assert [first][0].streamId in StreamIds([first]);
    assert FirstSeen([first]) == [RefOf(first)];
  }

  // ---- The journal's read operation ----

  /** `idIndex`: the position of the event with this id, the last one if ids repeat; -1 if none. */
  function PositionOf(log: seq<Event>, id: string): (i: int)
    ensures -1 <= i < |log|
  {
    if log == [] then -1
    else if log[|log| - 1].id == id then |log| - 1
    else PositionOf(log[..|log| - 1], id)
  }

  lemma {:induction false} PositionOfIsLast(log: seq<Event>, id: string)
    ensures var i := PositionOf(log, id);
      && (i >= 0 ==> log[i].id == id)
      && (forall j :: i < j < |log| ==> log[j].id != id)
    decreases |log|
  {
    if log != [] && log[|log| - 1].id != id {
      PositionOfIsLast(log[..|log| - 1], id);
    }
  }

  /** Up to `limit` events after the one with this id; from the start for the zero id or an unknown one. */
  function ReadFrom(log: seq<Event>, afterId: string, limit: int): seq<Event> {
    var start := if afterId == "" then 0 else PositionOf(log, afterId) + 1;
    if start >= |log| then []
    else if limit > 0 && |log| - start > limit then log[start..start + limit]
    else log[start..]
  }

  ghost predicate NoZeroIds(journal: seq<Event>) {
    forall i :: 0 <= i < |journal| ==> journal[i].id != ""
  }

  /** The id after which the next page is read when the last one ended at `end`. */
  function IdAfter(journal: seq<Event>, end: nat): string
    requires end <= |journal|
  {
    if end == 0 then "" else journal[end - 1].id
  }

  /** The id of the last event read, which is the one before `end`, is also that of event j. */
  predicate Returns(journal: seq<Event>, end: int, j: int) {
    0 < end <= |journal| && 0 <= j < |journal| && journal[j].id == journal[end - 1].id
  }

  /** Where the next page starts: behind the last visible event that has the id of the last event read. */
  function NextStart(journal: seq<Event>, size: nat, end: nat): (start: nat)
    requires end <= size <= |journal|
    ensures end <= start <= size
    decreases size
  {
    if end == 0 || end == size then end
    else if Returns(journal, end, size - 1) then size
    else NextStart(journal, size - 1, end)
  }

  /** Nothing is skipped exactly when the id of the last event read is not seen again. */
  lemma {:induction false} SkipsNothingExactlyWhen(journal: seq<Event>, size: nat, end: nat)
    requires 0 < end <= size <= |journal|
    ensures NextStart(journal, size, end) == end <==> forall j :: end <= j < size ==> !Returns(journal, end, j)
    decreases size
  {
    if end < size {
      SkipsNothingExactlyWhen(journal, size - 1, end);
    }
  }

  lemma {:induction false} NextStartIsBehindTheId(journal: seq<Event>, size: nat, end: nat)
    requires 0 < end <= size <= |journal|
    ensures PositionOf(journal[..size], journal[end - 1].id) + 1 == NextStart(journal, size, end)
    decreases size
  {
    var log := journal[..size];
    assert log[size - 1] == journal[size - 1];
    if end < size && !Returns(journal, end, size - 1) {
      assert log[..size - 1] == journal[..size - 1];
      NextStartIsBehindTheId(journal, size - 1, end);
    }
  }

  function NextEnd(journal: seq<Event>, size: nat, end: nat): (next: nat)
    requires end <= size <= |journal|
    ensures NextStart(journal, size, end) <= next <= size
  {
    var start := NextStart(journal, size, end);
    if size - start > DISCOVERY_BATCH_SIZE then start + DISCOVERY_BATCH_SIZE else size
  }

  function NextPage(journal: seq<Event>, size: nat, end: nat): (page: seq<Event>)
    requires end <= size <= |journal|
    ensures |page| <= DISCOVERY_BATCH_SIZE && |page| == NextEnd(journal, size, end) - NextStart(journal, size, end)
  {
    var start := NextStart(journal, size, end);
    seq(NextEnd(journal, size, end) - start, k requires 0 <= k < NextEnd(journal, size, end) - start => journal[start + k])
  }

  /** What a read after the last event read returns. */
  lemma {:induction false} ReadFromContinues(journal: seq<Event>, size: nat, end: nat)
    requires NoZeroIds(journal) && end <= size <= |journal|
    ensures ReadFrom(journal[..size], IdAfter(journal, end), DISCOVERY_BATCH_SIZE) == NextPage(journal, size, end)
  {
    var log := journal[..size];
    var start := NextStart(journal, size, end);
    if end > 0 {
      NextStartIsBehindTheId(journal, size, end);
    }
    if size - start > DISCOVERY_BATCH_SIZE {
      assert log[start..start + DISCOVERY_BATCH_SIZE] == journal[start..start + DISCOVERY_BATCH_SIZE];
    } else {
      assert log[start..] == journal[start..size];
    }
  }

  /** How much of the journal the i-th read sees while other writers append to it. */
  function Visible(sizes: seq<nat>, full: nat, i: nat): nat {
    if i < |sizes| then sizes[i] else full
  }

  ghost predicate Growing(sizes: seq<nat>, full: nat) {
    && (forall i :: 0 <= i < |sizes| ==> sizes[i] <= full)
    && (forall i, j :: 0 <= i < j < |sizes| ==> sizes[i] <= sizes[j])
  }

  lemma {:induction false} VisibleGrows(sizes: seq<nat>, full: nat, i: nat)
    requires Growing(sizes, full)
    ensures Visible(sizes, full, i) <= Visible(sizes, full, i + 1) <= full
  {
  }

  // ---- What paging count ----

  /** How many events so many full pages hold. */
  function FullPages(pages: int): int {
    1000 * pages
  }

  /** Where the last page ends after so many reads. */
  function EndAfter(journal: seq<Event>, sizes: seq<nat>, count: nat): (end: nat)
    requires Growing(sizes, |journal|)
    ensures end <= Visible(sizes, |journal|, count) <= |journal|
  {
    VisibleGrows(sizes, |journal|, count);
    if count == 0 then 0
    else
      VisibleGrows(sizes, |journal|, count - 1);
      NextEnd(journal, Visible(sizes, |journal|, count - 1), EndAfter(journal, sizes, count - 1))
  }

  function StartOf(journal: seq<Event>, sizes: seq<nat>, i: nat): (start: nat)
    requires Growing(sizes, |journal|)
    ensures EndAfter(journal, sizes, i) <= start <= EndAfter(journal, sizes, i + 1)
  {
    NextStart(journal, Visible(sizes, |journal|, i), EndAfter(journal, sizes, i))
  }

  function PageSize(journal: seq<Event>, sizes: seq<nat>, i: nat): (n: nat)
    requires Growing(sizes, |journal|)
    ensures n <= DISCOVERY_BATCH_SIZE
  {
    EndAfter(journal, sizes, i + 1) - StartOf(journal, sizes, i)
  }

  /** The events of the first so many pages. */
  function EventsIn(journal: seq<Event>, sizes: seq<nat>, count: nat): seq<Event>
    requires Growing(sizes, |journal|)
  {
    if count == 0 then []
    else
      EventsIn(journal, sizes, count - 1)
      + NextPage(journal, Visible(sizes, |journal|, count - 1), EndAfter(journal, sizes, count - 1))
  }

  /** How many events those reads passed over. */
  function SkippedIn(journal: seq<Event>, sizes: seq<nat>, count: nat): nat
    requires Growing(sizes, |journal|)
  {
    if count == 0 then 0
    else SkippedIn(journal, sizes, count - 1)
         + (StartOf(journal, sizes, count - 1) - EndAfter(journal, sizes, count - 1))
  }

  /** Every event up to the end of the last page is read once or skipped. */
  lemma {:induction false} ReadOrSkipped(journal: seq<Event>, sizes: seq<nat>, count: nat)
    requires Growing(sizes, |journal|)
    ensures |EventsIn(journal, sizes, count)| + SkippedIn(journal, sizes, count) == EndAfter(journal, sizes, count)
  {
    if count > 0 {
      ReadOrSkipped(journal, sizes, count - 1);
    }
  }

  /** Without a skip, what was read is a prefix of the journal. */
  lemma {:induction false} UnskippedIsPrefix(journal: seq<Event>, sizes: seq<nat>, count: nat)
    requires Growing(sizes, |journal|) && SkippedIn(journal, sizes, count) == 0
    ensures EventsIn(journal, sizes, count) == journal[..EndAfter(journal, sizes, count)]
  {
    if count > 0 {
      UnskippedIsPrefix(journal, sizes, count - 1);
      var end := EndAfter(journal, sizes, count - 1);
      Adjoin(journal, Visible(sizes, |journal|, count - 1), end);
    }
  }

  lemma {:induction false} Adjoin(journal: seq<Event>, size: nat, end: nat)
    requires end <= size <= |journal| && NextStart(journal, size, end) == end
    ensures journal[..end] + NextPage(journal, size, end) == journal[..NextEnd(journal, size, end)]
  {
  }

  lemma {:induction false} UnskippedBefore(journal: seq<Event>, sizes: seq<nat>, i: nat, count: nat)
    requires Growing(sizes, |journal|) && SkippedIn(journal, sizes, count) == 0 && i <= count
    ensures SkippedIn(journal, sizes, i) == 0
    ensures i < count ==> StartOf(journal, sizes, i) == EndAfter(journal, sizes, i)
    decreases count
  {
    if i < count {
      UnskippedBefore(journal, sizes, i, count - 1);
    }
  }

  /** The first so many reads were all followed by another one, or by the context's end. */
  ghost predicate AllFull(journal: seq<Event>, sizes: seq<nat>, count: nat)
    requires Growing(sizes, |journal|)
  {
    forall i: nat :: i < count ==> PageSize(journal, sizes, i) == DISCOVERY_BATCH_SIZE
  }

  /**
   These are the reads that paging makes: it goes on after every full page, until a short one or
   until the context is cancelled or a read fails after `stopAt` reads; `stopAt` is negative if neither
   happens.
   */
  ghost predicate Makes(journal: seq<Event>, sizes: seq<nat>, stopAt: int, count: nat)
    requires Growing(sizes, |journal|)
  {
    && (stopAt < 0 || count <= stopAt)
    && if count == stopAt && AllFull(journal, sizes, count) then true
       else count > 0 && AllFull(journal, sizes, count - 1) && PageSize(journal, sizes, count - 1) < DISCOVERY_BATCH_SIZE
  }

  lemma {:induction false} UnskippedFullPages(journal: seq<Event>, sizes: seq<nat>, count: nat)
    requires Growing(sizes, |journal|) && AllFull(journal, sizes, count) && SkippedIn(journal, sizes, count) == 0
    ensures EndAfter(journal, sizes, count) == FullPages(count)
  {
    if count > 0 {
      UnskippedFullPages(journal, sizes, count - 1);
      assert PageSize(journal, sizes, count - 1) == DISCOVERY_BATCH_SIZE;
    }
  }

  /** The last id of the k-th full page does not occur again. */
  ghost predicate EndsOnce(journal: seq<Event>, k: nat) {
    var end := FullPages(k);
    0 < end <= |journal| ==> forall j :: end <= j < |journal| ==> !Returns(journal, end, j)
  }

  ghost predicate PagesEndOnce(journal: seq<Event>) {
    forall k: nat :: EndsOnce(journal, k)
  }

  lemma {:induction false} EndsOnceStartsInPlace(journal: seq<Event>, size: nat, k: nat)
    requires EndsOnce(journal, k) && FullPages(k) <= size <= |journal|
    ensures NextStart(journal, size, FullPages(k)) == FullPages(k)
  {
    if k > 0 {
      SkipsNothingExactlyWhen(journal, size, FullPages(k));
    }
  }

  lemma {:induction false} StartsInPlaceEndsOnce(journal: seq<Event>, k: nat)
    requires FullPages(k) <= |journal| && NextStart(journal, |journal|, FullPages(k)) == FullPages(k)
    ensures EndsOnce(journal, k)
  {
    if k > 0 {
      SkipsNothingExactlyWhen(journal, |journal|, FullPages(k));
    }
  }

  lemma {:induction false} NothingSkipped(journal: seq<Event>, sizes: seq<nat>, count: nat)
    requires Growing(sizes, |journal|) && PagesEndOnce(journal) && AllFull(journal, sizes, count)
    ensures SkippedIn(journal, sizes, count) == SkippedIn(journal, sizes, count + 1) == 0
  {
    if count > 0 {
      NothingSkipped(journal, sizes, count - 1);
    }
    UnskippedFullPages(journal, sizes, count);
    EndsOnceStartsInPlace(journal, Visible(sizes, |journal|, count), count);
  }

  /** How paging ended: stopped after full pages, or with a short page that reached all it could see. */
  ghost predicate Ended(sizes: seq<nat>, full: nat, stopAt: int, total: nat, count: nat) {
    || (count == stopAt && total == FullPages(count))
    || (count > 0 && (stopAt < 0 || count <= stopAt) && total == Visible(sizes, full, count - 1) < FullPages(count))
  }

  lemma {:induction false} HowFarPagingGets(journal: seq<Event>, sizes: seq<nat>, stopAt: int, count: nat)
    requires Growing(sizes, |journal|) && Makes(journal, sizes, stopAt, count) && PagesEndOnce(journal)
    ensures SkippedIn(journal, sizes, count) == 0
    ensures Ended(sizes, |journal|, stopAt, EndAfter(journal, sizes, count), count)
  {
    var full := if count == stopAt && AllFull(journal, sizes, count) then count else count - 1;
    NothingSkipped(journal, sizes, full);
    UnskippedFullPages(journal, sizes, full);
  }

  /**
   Paging a journal that may grow meanwhile covers a prefix of it, without gap or repetition, when no
   full page's last id occurs again: if nothing stops it, all that its last read could see; if
   something does, the pages before.
   */
  lemma {:induction false} PagingCoversAPrefix(journal: seq<Event>, sizes: seq<nat>, stopAt: int, count: nat)
    requires Growing(sizes, |journal|) && Makes(journal, sizes, stopAt, count) && PagesEndOnce(journal)
    ensures var total := |EventsIn(journal, sizes, count)|;
      && total <= |journal| && Ended(sizes, |journal|, stopAt, total, count)
      && EventsIn(journal, sizes, count) == journal[..total]
  {
    HowFarPagingGets(journal, sizes, stopAt, count);
    UnskippedIsPrefix(journal, sizes, count);
  }

  /** Where the reads of unskipped paging start. */
  lemma {:induction false} UnskippedStart(journal: seq<Event>, sizes: seq<nat>, k: nat, count: nat)
    requires Growing(sizes, |journal|) && k < count && AllFull(journal, sizes, count - 1)
    requires SkippedIn(journal, sizes, count) == 0
    ensures StartOf(journal, sizes, k) == EndAfter(journal, sizes, k) == FullPages(k)
  {
    UnskippedBefore(journal, sizes, k, count);
    UnskippedFullPages(journal, sizes, k);
  }

  /** When all of a quiet journal was read, no full page's last id occurs again. */
  lemma {:induction false} CompleteEndsOnce(journal: seq<Event>, count: nat, k: nat)
    requires count > 0 && AllFull(journal, [], count - 1)
    requires SkippedIn(journal, [], count) == 0 && EndAfter(journal, [], count) == |journal|
    ensures |journal| <= FullPages(count) && EndsOnce(journal, k)
  {
    UnskippedStart(journal, [], count - 1, count);
    assert PageSize(journal, [], count - 1) <= DISCOVERY_BATCH_SIZE;
    if k < count {
      UnskippedStart(journal, [], k, count);
      StartsInPlaceEndsOnce(journal, k);
    }
  }

  /**
   Paging a quiet journal reads all of it exactly when no full page's last id occurs again and
   nothing stops it before its last event is read.
   */
  lemma {:induction false} PagingIsCompleteExactlyWhen(journal: seq<Event>, stopAt: int, count: nat)
    requires Makes(journal, [], stopAt, count)
    ensures var total := |EventsIn(journal, [], count)|;
      && total <= |journal|
      && (total == |journal| <==> PagesEndOnce(journal) && (stopAt < 0 || |journal| <= FullPages(stopAt)))
  {
    ReadOrSkipped(journal, [], count);
    if PagesEndOnce(journal) {
      PagingCoversAPrefix(journal, [], stopAt, count);
    }
    if EndAfter(journal, [], count) == |journal| && SkippedIn(journal, [], count) == 0 && count > 0 {
      forall k: nat ensures |journal| <= FullPages(count) && EndsOnce(journal, k) {
        CompleteEndsOnce(journal, count, k);
      }
      assert EndsOnce(journal, 0);
    }
  }

  lemma {:induction false} DistinctIdsEndPagesOnce(journal: seq<Event>)
    requires forall i, j :: 0 <= i < j < |journal| ==> journal[i].id != journal[j].id
    ensures PagesEndOnce(journal)
  {
  }

  /** A journal of this many events with different ids. */
  function Numbered(n: nat): (journal: seq<Event>)
    ensures |journal| == n && NoZeroIds(journal)
  {
    seq(n, (i: nat) => Event(seq(i + 1, _ => 'i'), "t", "s"))
  }

  /** A failed or cancelled read drops events without an error, however late it comes. */
  lemma {:induction false} StoppedPagingFallsShort(stopAt: nat) returns (journal: seq<Event>)
    ensures NoZeroIds(journal) && PagesEndOnce(journal)
    ensures forall count: nat :: Makes(journal, [], stopAt, count) ==> |EventsIn(journal, [], count)| < |journal|
  {
    journal := Numbered(FullPages(stopAt) + 1);
    forall i, j | 0 <= i < j < |journal| ensures journal[i].id != journal[j].id {
      assert |journal[i].id| != |journal[j].id|;
    }
    DistinctIdsEndPagesOnce(journal);
    forall count: nat | Makes(journal, [], stopAt, count) ensures |EventsIn(journal, [], count)| < |journal| {
      PagingIsCompleteExactlyWhen(journal, stopAt, count);
    }
  }

  /** An id stored a second time behind a page it ends hides the events in between. */
  lemma {:induction false} RepeatedIdFallsShort(e: Event, count: nat)
    requires Makes(seq(DISCOVERY_BATCH_SIZE + 1, _ => e), [], -1, count)
    ensures |EventsIn(seq(DISCOVERY_BATCH_SIZE + 1, _ => e), [], count)| < DISCOVERY_BATCH_SIZE + 1
  {
    var journal := seq(DISCOVERY_BATCH_SIZE + 1, _ => e);
    assert Returns(journal, DISCOVERY_BATCH_SIZE, DISCOVERY_BATCH_SIZE);
    assert !EndsOnce(journal, 1);
    PagingIsCompleteExactlyWhen(journal, -1, count);
  }

  // ---- What collecting keeps ----

  lemma {:induction false} IdsOfStep(refs: seq<StreamRef>, r: StreamRef)
    ensures IdsOf(refs + [r]) == IdsOf(refs) + [r.streamId]
  {
  }

  /** These lists and this seen-set are what scanning h yields. */
  ghost predicate Scanned(h: seq<Event>, maxStreams: int, seen: set<string>, refs: seq<StreamRef>, ids: seq<string>) {
    && seen == StreamIds(h)
    && refs == Capped(FirstSeen(h), maxStreams)
    && ids == IdsOf(refs)
  }

  /** What one event changes. */
  lemma {:induction false} ScannedStep(h: seq<Event>, e: Event, maxStreams: int, seen: set<string>,
                                       refs: seq<StreamRef>, ids: seq<string>)
    requires Scanned(h, maxStreams, seen, refs, ids)
    ensures if e.streamId in seen then Scanned(h + [e], maxStreams, seen, refs, ids)
            else if |ids| < maxStreams then
              Scanned(h + [e], maxStreams, seen + {e.streamId}, refs + [RefOf(e)], ids + [e.streamId])
            else Scanned(h + [e], maxStreams, seen + {e.streamId}, refs, ids)
  {
    StreamIdsStep(h, e);
    FirstSeenStep(h, e);
    IdsOfStep(refs, RefOf(e));
    assert e.streamId in seen ==> seen + {e.streamId} == seen;
  }
}

module DiscoveryObjects {
  import opened Discoveries

  /** The journals a runner may have: one read page by page, one read at once, or neither. */
  datatype Bundle =
    | Seekable(journal: seq<Event>, sizes: seq<nat>, stopAt: int)
    | Journal(events: seq<Event>, fails: bool)
    | NoJournal

  datatype Outcome = Done | ReadFailed | NilBundle

  class Runner {
    var aggIDs: seq<string>
    var refs: seq<StreamRef>
    var totalEvents: int
    var streams: int

    constructor ()
      ensures aggIDs == [] && refs == [] && totalEvents == 0 && streams == 0
    {
      aggIDs, refs, totalEvents, streams := [], [], 0, 0;
    }

    method CollectStreamIDs(events: seq<Event>, maxStreams: int, seen: set<string>, ghost past: seq<Event>)
      returns (n: nat, now: set<string>)
      requires Scanned(past, maxStreams, seen, refs, aggIDs)
      modifies `aggIDs, `refs
      ensures n == |events| && Scanned(past + events, maxStreams, now, refs, aggIDs)
    {
      now := seen;
      assert past + events[..0] == past;
      for i := 0 to |events|
        invariant Scanned(past + events[..i], maxStreams, now, refs, aggIDs)
      {
        var e := events[i];
        ScannedStep(past + events[..i], e, maxStreams, now, refs, aggIDs);
        assert past + events[..i] + [e] == past + events[..i + 1];
        if e.streamId in now {
          continue;
        }
        now := now + {e.streamId};
        if |aggIDs| < maxStreams {
          aggIDs := aggIDs + [e.streamId];
          refs := refs + [RefOf(e)];
        }
      }
      assert past + events[..|events|] == past + events;
      n := |events|;
    }

    /** One turn of the loop: read a page after `afterId` and collect it. */
    method TakePage(journal: seq<Event>, sizes: seq<nat>, i: nat, afterId: string, maxStreams: int, seen: set<string>)
      returns (n: nat, lastId: string, now: set<string>)
      requires NoZeroIds(journal) && Growing(sizes, |journal|)
      requires afterId == IdAfter(journal, EndAfter(journal, sizes, i))
      requires Scanned(EventsIn(journal, sizes, i), maxStreams, seen, refs, aggIDs)
      modifies `aggIDs, `refs
      ensures n == PageSize(journal, sizes, i)
      ensures |EventsIn(journal, sizes, i + 1)| == |EventsIn(journal, sizes, i)| + n
      ensures Scanned(EventsIn(journal, sizes, i + 1), maxStreams, now, refs, aggIDs)
      ensures n > 0 ==> lastId == IdAfter(journal, EndAfter(journal, sizes, i + 1))
    {
      var size := Visible(sizes, |journal|, i);
      ghost var end, past := EndAfter(journal, sizes, i), EventsIn(journal, sizes, i);
      var batch := ReadFrom(journal[..size], afterId, DISCOVERY_BATCH_SIZE);
      ReadFromContinues(journal, size, end);
      if |batch| == 0 {
        assert past + batch == past;
        return 0, afterId, seen;
      }
      n, now := CollectStreamIDs(batch, maxStreams, seen, past);
      lastId := batch[|batch| - 1].id;
    }

    /** Paged discovery terminates and scans what it reads. */
    method DiscoverFromSeekable(journal: seq<Event>, sizes: seq<nat>, stopAt: int, maxStreams: int)
      returns (total: nat, ghost seen: set<string>, ghost count: nat)
      requires NoZeroIds(journal) && Growing(sizes, |journal|)
      requires aggIDs == [] && refs == []
      modifies `aggIDs, `refs
      ensures Makes(journal, sizes, stopAt, count)
      ensures total == |EventsIn(journal, sizes, count)|
      ensures Scanned(EventsIn(journal, sizes, count), maxStreams, seen, refs, aggIDs)
    {
      var afterId := "";
      var known: set<string> := {};
      var i := 0;
      total := 0;
      while i != stopAt
        invariant 0 <= i && (stopAt < 0 || i <= stopAt) && AllFull(journal, sizes, i)
        invariant afterId == IdAfter(journal, EndAfter(journal, sizes, i))
        invariant total == |EventsIn(journal, sizes, i)|
        invariant Scanned(EventsIn(journal, sizes, i), maxStreams, known, refs, aggIDs)
        decreases |journal| - EndAfter(journal, sizes, i)
      {
        var n, lastId, now := TakePage(journal, sizes, i, afterId, maxStreams, known);
        total, afterId, known, i := total + n, lastId, now, i + 1;
        if n < DISCOVERY_BATCH_SIZE {
          break;
        }
      }
      seen, count := known, i;
    }

    method DiscoverFromJournal(events: seq<Event>, fails: bool, maxStreams: int) returns (total: nat, ok: bool)
      requires aggIDs == [] && refs == []
      modifies `aggIDs, `refs
      ensures ok == !fails
      ensures ok ==> total == |events| && Scanned(events, maxStreams, StreamIds(events), refs, aggIDs)
      ensures !ok ==> total == 0 && aggIDs == [] && refs == []
    {
      if fails {
        return 0, false;
      }
      var n, now := CollectStreamIDs(events, maxStreams, {}, []);
      assert [] + events == events;
      return n, true;
    }

    /**
     Both kinds of journal give the capped list of the streams read. Paging a quiet journal reads all
     of it, and so gives what one scan gives, exactly when no full page's last id occurs again and
     nothing stops it before the last event; it reports no error either way.
     */
    method DiscoverStreams(bundle: Bundle, maxStreams: nat) returns (r: Outcome, ghost count: nat)
      requires bundle.Seekable? ==> NoZeroIds(bundle.journal) && Growing(bundle.sizes, |bundle.journal|)
      modifies this
      ensures r == match bundle
                   case Seekable(_, _, _) => Done
                   case Journal(_, fails) => if fails then ReadFailed else Done
                   case NoJournal => NilBundle
      ensures r == Done && bundle.Journal? ==>
        && totalEvents == |bundle.events|
        && FirstOnes(FirstSeen(bundle.events), maxStreams, refs)
      ensures bundle.Seekable? ==>
        && Makes(bundle.journal, bundle.sizes, bundle.stopAt, count)
        && totalEvents == |EventsIn(bundle.journal, bundle.sizes, count)|
        && FirstOnes(FirstSeen(EventsIn(bundle.journal, bundle.sizes, count)), maxStreams, refs)
      ensures bundle.Seekable? && PagesEndOnce(bundle.journal) ==>
        && 0 <= totalEvents <= |bundle.journal|
        && FirstOnes(FirstSeen(bundle.journal[..totalEvents]), maxStreams, refs)
        && Ended(bundle.sizes, |bundle.journal|, bundle.stopAt, totalEvents, count)
      ensures bundle.Seekable? && bundle.sizes == [] ==>
        (totalEvents == |bundle.journal| <==>
           && PagesEndOnce(bundle.journal)
           && (bundle.stopAt < 0 || |bundle.journal| <= FullPages(bundle.stopAt)))
      ensures r == Done ==> aggIDs == IdsOf(refs) && streams == |refs| <= maxStreams
      ensures r != Done ==> aggIDs == [] && refs == [] && totalEvents == old(totalEvents) && streams == old(streams)
    {
      aggIDs, refs, count := [], [], 0;
      var total;
      match bundle {
        case Seekable(journal, sizes, stopAt) =>
          ghost var seen;
          total, seen, count := DiscoverFromSeekable(journal, sizes, stopAt, maxStreams);
          CappedAreFirstOnes(FirstSeen(EventsIn(journal, sizes, count)), maxStreams);
          if PagesEndOnce(journal) {
            PagingCoversAPrefix(journal, sizes, stopAt, count);
          }
          if sizes == [] {
            PagingIsCompleteExactlyWhen(journal, stopAt, count);
          }
        case Journal(events, fails) =>
          var ok;
          total, ok := DiscoverFromJournal(events, fails, maxStreams);
          CappedAreFirstOnes(FirstSeen(events), maxStreams);
          if !ok {
            return ReadFailed, count;
          }
        case NoJournal =>
          return NilBundle, count;
      }
      totalEvents := total;
      streams := |aggIDs|;
      r := Done;
    }
  }
}
