/**
 The pipeline with its side cache refines the pipeline without one: whatever
 callers, the database, the storage and the message broker see of a cached run,
 they also see of a run in which no event is cached.

 A read that will hit the cache has to have fetched its bytes, in the uncached
 run, while the event row still existed. Which reads hit is only known later,
 so the uncached run is built from the last step of the cached run backwards.
 */
module PipelineRefinement {
  import opened Wrappers
  import opened MediaNames
  import opened Pipeline
  import opened PipelineSafety

  function Uncached(c: Config): Config {
    c.(caching := false)
  }

  function Bare(s: Shared): Shared {
    s.(cache := map[])
  }

  /** Where a read of the uncached run may stand when the cached one stands at `r`. */
  ghost predicate ReadMatches(s: Shared, id: string, r: Read, u: Read) {
    match r
    case RCache(row) => u == REvent(row, false) || (id in s.minted && u == RGot(row.name, s.minted[id].content))
    case REvent(row, _) => u == REvent(row, false)
    case RBlob(row, store, _) => u == RBlob(row, store, false)
    case RFill(row, data) => u == RGot(row.name, data)
    case _ => u == r
  }

  ghost predicate JobMatches(s: Shared, job: Job, u: Job) {
    match job
    case UFill(up, mt, id) => u == UPublish(up, mt, id)
    case TFill(m, name, id, _) => u == TAdd(m, name, id)
    case Get(kind, id, r) => u.Get? && u == Get(kind, id, u.read) && ReadMatches(s, id, r, u.read)
    case TRead(m, evt, name, r) => u.TRead? && u == TRead(m, evt, name, u.read) && ReadMatches(s, m.file, r, u.read)
    case _ => u == job
  }

  ghost predicate Matches(s: State, u: State) {
    && u.shared == Bare(s.shared) && u.log == s.log && u.threads.Keys == s.threads.Keys
    && forall t :: t in s.threads ==> JobMatches(s.shared, s.threads[t], u.threads[t])
  }

  lemma {:induction false} RunsJoin(c: Config, s: State, first: seq<Action>, second: seq<Action>)
    requires RunFrom(c, s, first).Some?
    ensures RunFrom(c, s, first + second) == RunFrom(c, RunFrom(c, s, first).value, second)
  {
    if second == [] {
      assert first + second == first;
    } else {
      var n := |second| - 1;
      RunsJoin(c, s, first, second[..n]);
      assert (first + second)[..|first + second| - 1] == first + second[..n];
    }
  }

  lemma OneAction(c: Config, u: State, a: Action)
    ensures RunFrom(c, u, [a]) == Step(c, u, a)
  {
    assert [a][..0] == [];
    assert RunFrom(c, u, []) == Some(u);
  }

  /** Runs `calls` through one read; None if it is over too early or would touch the cache. */
  function ReadRun(c: Config, s: Shared, kind: Kind, id: string, r: Read, calls: seq<Call>): Option<Read>
    decreases |calls|
  {
    if calls == [] then Some(r)
    else if r.RGot? || r.RFailed? || r.RFill? then None
    else ReadRun(c, s, kind, id, ReadNext(c, s, kind, id, r, calls[0]), calls[1..])
  }

  /** Runs `calls` through one thread as long as it goes on. */
  function JobRun(c: Config, s: Shared, job: Job, calls: seq<Call>): Option<(Shared, Job)>
    decreases |calls|
  {
    if calls == [] then Some((s, job))
    else
      var move := JobStep(c, s, job, calls[0]);
      if !move.Next? then None else JobRun(c, move.after, move.job, calls[1..])
  }

  lemma {:induction false} GetRun(c: Config, s: Shared, kind: Kind, id: string, r: Read, calls: seq<Call>)
    requires ReadRun(c, s, kind, id, r, calls).Some?
    ensures JobRun(c, s, Get(kind, id, r), calls) == Some((s, Get(kind, id, ReadRun(c, s, kind, id, r, calls).value)))
    decreases |calls|
  {
    if calls != [] {
      GetRun(c, s, kind, id, ReadNext(c, s, kind, id, r, calls[0]), calls[1..]);
    }
  }

  lemma {:induction false} PictureRun(c: Config, s: Shared, m: Photo, evt: Event, name: string, r: Read,
                                      calls: seq<Call>)
    requires ReadRun(c, s, Picture, m.file, r, calls).Some?
    ensures JobRun(c, s, TRead(m, evt, name, r), calls)
         == Some((s, TRead(m, evt, name, ReadRun(c, s, Picture, m.file, r, calls).value)))
    decreases |calls|
  {
    if calls != [] {
      PictureRun(c, s, m, evt, name, ReadNext(c, s, Picture, m.file, r, calls[0]), calls[1..]);
    }
  }

  function Advances(t: nat, calls: seq<Call>): seq<Action> {
    if calls == [] then [] else [Advance(t, calls[0])] + Advances(t, calls[1..])
  }

  /** The calls of one thread are steps of the system. */
  lemma {:induction false} LiftRun(c: Config, u: State, t: nat, calls: seq<Call>)
    requires t in u.threads && JobRun(c, u.shared, u.threads[t], calls).Some?
    ensures var end := JobRun(c, u.shared, u.threads[t], calls).value;
      RunFrom(c, u, Advances(t, calls)) == Some(State(end.0, u.threads[t := end.1], u.log))
    decreases |calls|
  {
    if calls == [] {
      assert u.threads[t := u.threads[t]] == u.threads;
    } else {
      var move := JobStep(c, u.shared, u.threads[t], calls[0]);
      var u1 := State(move.after, u.threads[t := move.job], u.log);
      OneAction(c, u, Advance(t, calls[0]));
      LiftRun(c, u1, t, calls[1..]);
      RunsJoin(c, u, [Advance(t, calls[0])], Advances(t, calls[1..]));
      var end := JobRun(c, u.shared, u.threads[t], calls).value;
      assert u1.threads[t := end.1] == u.threads[t := end.1];
    }
  }

  /** While the row, the event and the blob are there, three calls fetch the bytes. */
  lemma FetchSteps(d: Config, u: Shared, kind: Kind, id: string, row: Row, store: nat)
    requires !d.caching && Find(u, kind, id) == Some(row) && row.event in u.events && u.events[row.event].store == store
    requires (store, id) in u.blobs
    ensures ReadRun(d, u, kind, id, RRow, [Through, Through, Through]) == Some(RGot(row.name, u.blobs[(store, id)]))
  {
    var c3: seq<Call>, c2: seq<Call>, c1: seq<Call> := [Through, Through, Through], [Through, Through], [Through];
    assert c3[1..] == c2 && c2[1..] == c1 && c1[1..] == [];
    assert ReadRun(d, u, kind, id, RBlob(row, store, false), c1) == Some(RGot(row.name, u.blobs[(store, id)]));
    assert ReadRun(d, u, kind, id, REvent(row, false), c2) == Some(RGot(row.name, u.blobs[(store, id)]));
  }

  /** Without a cache a read that has found its row goes straight to its event. */
  lemma RowNext(c: Config, s: Shared, kind: Kind, id: string, call: Call)
    ensures var n := ReadNext(c, s, kind, id, RRow, call);
      && ReadNext(Uncached(c), Bare(s), kind, id, RRow, call) == (if n.RCache? then REvent(n.row, false) else n)
      && (n.RCache? ==> Find(s, kind, id) == Some(n.row) && n.row.event in s.events)
      && !n.RGot?
  {
  }

  lemma RowBack(c: Config, s: Shared, kind: Kind, id: string, call: Call, v': Read) returns (calls: seq<Call>)
    requires RecordsKept(c, s) && ReadMatches(s, id, ReadNext(c, s, kind, id, RRow, call), v')
    ensures ReadRun(Uncached(c), Bare(s), kind, id, RRow, calls) == Some(v')
  {
    RowNext(c, s, kind, id, call);
    if v'.RGot? {
      calls := FetchBack(c, s, kind, id, Find(s, kind, id).value);
      FoundIsMinted(c, s, kind, id);
    } else {
      calls := [call];
      assert calls[1..] == [];
    }
  }

  lemma FetchBack(c: Config, s: Shared, kind: Kind, id: string, row: Row) returns (calls: seq<Call>)
    requires RecordsKept(c, s) && Find(s, kind, id) == Some(row) && row.event in s.events
    ensures id in s.minted
    ensures ReadRun(Uncached(c), Bare(s), kind, id, RRow, calls) == Some(RGot(row.name, s.minted[id].content))
  {
    FoundIsMinted(c, s, kind, id);
    calls := [Through, Through, Through];
    FetchSteps(Uncached(c), Bare(s), kind, id, row, s.events[row.event].store);
  }

  /** A cache hit returns what the uncached read had already fetched. */
  lemma HitBack(c: Config, s: Shared, kind: Kind, id: string, row: Row, call: Call, v': Read)
    requires RecordsKept(c, s) && Find(s, kind, id) == Some(row)
    requires ReadMatches(s, id, ReadNext(c, s, kind, id, RCache(row), call), v')
    ensures ReadMatches(s, id, RCache(row), v')
  {
    FoundIsMinted(c, s, kind, id);
    if v'.RGot? {
      assert Key(row.event, id) in s.cache;
    }
  }

  lemma StorageBack(c: Config, s: Shared, kind: Kind, id: string, r: Read, call: Call, v': Read) returns (v: Read)
    requires r.REvent? || r.RBlob?
    requires ReadMatches(s, id, ReadNext(c, s, kind, id, r, call), v')
    ensures ReadMatches(s, id, r, v)
    ensures ReadRun(Uncached(c), Bare(s), kind, id, v, [call]) == Some(v')
  {
    v := if r.REvent? then REvent(r.row, false) else RBlob(r.row, r.store, false);
    assert [call][1..] == [];
  }

  /** One call of a read, taken backwards: from where the uncached read ends to where it began. */
  lemma ReadBack(c: Config, s: Shared, kind: Kind, id: string, r: Read, call: Call, v': Read)
    returns (v: Read, calls: seq<Call>)
    requires RecordsKept(c, s) && ReadKept(s, kind, id, r) && !r.RGot? && !r.RFailed?
    requires ReadMatches(s, id, ReadNext(c, s, kind, id, r, call), v')
    ensures ReadMatches(s, id, r, v)
    ensures ReadRun(Uncached(c), Bare(s), kind, id, v, calls) == Some(v')
  {
    match r
    case RRow =>
      v := RRow;
      calls := RowBack(c, s, kind, id, call, v');
    case RCache(row) =>
      HitBack(c, s, kind, id, row, call, v');
      v, calls := v', [];
    case RFill(_, _) => v, calls := v', [];
    case _ =>
      v := StorageBack(c, s, kind, id, r, call, v');
      calls := [call];
  }

  predicate Reading(job: Job) {
    (job.Get? || job.TRead?) && !job.read.RGot? && !job.read.RFailed?
  }

  predicate Filling(job: Job) {
    job.UFill? || job.TFill?
  }

  lemma ReadingBack(c: Config, s: Shared, job: Job, call: Call, k': Job) returns (k: Job, calls: seq<Call>)
    requires RecordsKept(c, s) && JobKept(c, s, job) && Reading(job)
    requires JobMatches(s, JobStep(c, s, job, call).job, k')
    ensures JobMatches(s, job, k)
    ensures JobRun(Uncached(c), Bare(s), k, calls) == Some((Bare(s), k'))
  {
    match job
    case Get(kind, id, r) =>
      var v;
      v, calls := ReadBack(c, s, kind, id, r, call, k'.read);
      k := Get(kind, id, v);
      GetRun(Uncached(c), Bare(s), kind, id, v, calls);
    case TRead(m, evt, name, r) =>
      var v;
      v, calls := ReadBack(c, s, Picture, m.file, r, call, k'.read);
      k := TRead(m, evt, name, v);
      PictureRun(Uncached(c), Bare(s), m, evt, name, v, calls);
  }

  /** Drops from a position what only the cache needs. */
  function Plain(job: Job): Job {
    match job
    case UFill(up, mt, id) => UPublish(up, mt, id)
    case TFill(m, name, id, _) => TAdd(m, name, id)
    case Get(kind, id, r) => Get(kind, id, PlainRead(r))
    case TRead(m, evt, name, r) => TRead(m, evt, name, PlainRead(r))
    case _ => job
  }

  function PlainRead(r: Read): Read {
    match r
    case RCache(row) => REvent(row, false)
    case REvent(row, _) => REvent(row, false)
    case RBlob(row, store, _) => RBlob(row, store, false)
    case RFill(row, data) => RGot(row.name, data)
    case _ => r
  }

  /** The only position that leaves a choice of what the uncached thread has already done. */
  predicate AtCache(job: Job) {
    (job.Get? || job.TRead?) && job.read.RCache?
  }

  lemma OnlyPlain(s: Shared, job: Job, k: Job)
    requires JobMatches(s, job, k) && !AtCache(job)
    ensures k == Plain(job)
  {
  }

  /** The uncached thread makes the move `u` where the cached one makes `move`. */
  ghost predicate SameMove(move: Move, u: Move) {
    match move
    case Stuck => true
    case Next(after, job) => u.Next? && u.after == Bare(after) && u.job == Plain(job) && !AtCache(job)
    case Last(after, o) => u.Last? && u.after == Bare(after) && u.outcome == o
  }

  lemma SameCheckUpload(c: Config, s: Shared, up: Upload, call: Call)
    ensures SameMove(CheckUpload(s, up, call), CheckUpload(Bare(s), up, call))
  {
  }

  lemma SameStoreUpload(c: Config, s: Shared, up: Upload, mt: MediaType, evt: Event, call: Call)
    ensures SameMove(StoreUpload(s, up, mt, evt, call), StoreUpload(Bare(s), up, mt, evt, call))
  {
  }

  lemma SameAddUpload(c: Config, s: Shared, up: Upload, mt: MediaType, evt: Event, id: string, call: Call)
    ensures SameMove(AddUpload(c, s, up, mt, evt, id, call), AddUpload(Uncached(c), Bare(s), up, mt, evt, id, call))
  {
  }

  lemma SamePublishUpload(c: Config, s: Shared, up: Upload, mt: MediaType, id: string, call: Call)
    ensures SameMove(PublishUpload(s, up, mt, id, call), PublishUpload(Bare(s), up, mt, id, call))
  {
  }

  lemma SameFindEvent(c: Config, s: Shared, m: Photo, call: Call)
    ensures SameMove(FindThumbEvent(s, m, call), FindThumbEvent(Bare(s), m, call))
  {
  }

  lemma SameFindFile(c: Config, s: Shared, m: Photo, evt: Event, call: Call)
    ensures SameMove(FindThumbFile(s, m, evt, call), FindThumbFile(Bare(s), m, evt, call))
  {
  }

  lemma SameMakeThumb(c: Config, s: Shared, m: Photo, evt: Event, name: string, r: Read, call: Call)
    requires r.RGot? || r.RFailed?
    ensures SameMove(MakeThumb(c, s, m, evt, name, r, call), MakeThumb(Uncached(c), Bare(s), m, evt, name, r, call))
  {
  }

  lemma SameStoreThumb(c: Config, s: Shared, m: Photo, evt: Event, name: string, data: Bytes, answer: Answer,
                       call: Call)
    ensures SameMove(StoreThumb(c, s, m, evt, name, data, answer, call),
                     StoreThumb(Uncached(c), Bare(s), m, evt, name, data, answer, call))
  {
  }

  lemma SameAddThumb(c: Config, s: Shared, m: Photo, name: string, id: string, call: Call)
    ensures SameMove(AddThumb(s, m, name, id, call), AddThumb(Bare(s), m, name, id, call))
  {
  }

  lemma SamePublishThumb(c: Config, s: Shared, m: Photo, id: string, call: Call)
    ensures SameMove(PublishThumb(s, m, id, call), PublishThumb(Bare(s), m, id, call))
  {
  }

  /** Steps that neither read through the cache nor fill it do the same without a cache. */
  lemma PlainMoves(c: Config, s: Shared, job: Job, call: Call)
    requires !Reading(job) && !Filling(job)
    ensures SameMove(JobStep(c, s, job, call), JobStep(Uncached(c), Bare(s), job, call))
  {
    match job
    case Get(_, _, _) =>
    case TRead(m, evt, name, r) => SameMakeThumb(c, s, m, evt, name, r, call);
    case UCheck(up) => SameCheckUpload(c, s, up, call);
    case UStore(up, mt, evt) => SameStoreUpload(c, s, up, mt, evt, call);
    case UAdd(up, mt, evt, id) => SameAddUpload(c, s, up, mt, evt, id, call);
    case UPublish(up, mt, id) => SamePublishUpload(c, s, up, mt, id, call);
    case TEvent(m) => SameFindEvent(c, s, m, call);
    case TFile(m, evt) => SameFindFile(c, s, m, evt, call);
    case TStore(m, evt, name, data, answer) => SameStoreThumb(c, s, m, evt, name, data, answer, call);
    case TAdd(m, name, id) => SameAddThumb(c, s, m, name, id, call);
    case TPublish(m, id) => SamePublishThumb(c, s, m, id, call);
  }

  lemma CopyBack(c: Config, s: Shared, job: Job, call: Call, k': Job)
    requires SameMove(JobStep(c, s, job, call), JobStep(Uncached(c), Bare(s), job, call))
    requires JobStep(c, s, job, call).Next?
    requires JobMatches(JobStep(c, s, job, call).after, JobStep(c, s, job, call).job, k')
    ensures JobRun(Uncached(c), Bare(s), job, [call]) == Some((Bare(JobStep(c, s, job, call).after), k'))
  {
    assert [call][1..] == [];
    var plain := JobStep(Uncached(c), Bare(s), job, call);
    OnlyPlain(JobStep(c, s, job, call).after, JobStep(c, s, job, call).job, k');
    assert JobRun(Uncached(c), plain.after, plain.job, []) == Some((plain.after, plain.job));
  }

  lemma FillBack(c: Config, s: Shared, job: Job, call: Call, k': Job)
    requires Filling(job)
    requires JobMatches(JobStep(c, s, job, call).after, JobStep(c, s, job, call).job, k')
    ensures JobMatches(s, job, k') && Bare(JobStep(c, s, job, call).after) == Bare(s)
  {
  }

  /** Only the shared cache can change under a read. */
  lemma ReadingStays(c: Config, s: Shared, job: Job, call: Call)
    requires Reading(job)
    ensures JobStep(c, s, job, call).Next? && Bare(JobStep(c, s, job, call).after) == Bare(s)
  {
  }

  lemma MatchesBare(s: Shared, s': Shared, job: Job, k: Job)
    requires Bare(s) == Bare(s') && JobMatches(s', job, k)
    ensures JobMatches(s, job, k)
  {
    assert Bare(s).minted == s.minted && Bare(s').minted == s'.minted;
  }

  lemma ReadingNext(c: Config, s: Shared, job: Job, call: Call, after: Shared, next: Job, k': Job)
    returns (k: Job, calls: seq<Call>)
    requires RecordsKept(c, s) && JobKept(c, s, job) && Reading(job)
    requires JobStep(c, s, job, call) == Next(after, next) && JobMatches(after, next, k')
    ensures JobMatches(s, job, k) && JobRun(Uncached(c), Bare(s), k, calls) == Some((Bare(after), k'))
  {
    ReadingStays(c, s, job, call);
    MatchesBare(s, after, next, k');
    k, calls := ReadingBack(c, s, job, call, k');
  }

  lemma PlainNext(c: Config, s: Shared, job: Job, call: Call, after: Shared, next: Job, k': Job)
    requires !Reading(job) && !Filling(job)
    requires JobStep(c, s, job, call) == Next(after, next) && JobMatches(after, next, k')
    ensures JobRun(Uncached(c), Bare(s), job, [call]) == Some((Bare(after), k'))
  {
    PlainMoves(c, s, job, call);
    CopyBack(c, s, job, call, k');
  }

  lemma MatchesItself(s: Shared, job: Job)
    requires !Reading(job) && !Filling(job)
    ensures JobMatches(s, job, job)
  {
  }

  /** A call after which the thread goes on, taken backwards. */
  lemma NextBack(c: Config, s: Shared, job: Job, call: Call, after: Shared, next: Job, k': Job)
    returns (k: Job, calls: seq<Call>)
    requires RecordsKept(c, s) && JobKept(c, s, job)
    requires JobStep(c, s, job, call) == Next(after, next) && JobMatches(after, next, k')
    ensures JobMatches(s, job, k) && JobRun(Uncached(c), Bare(s), k, calls) == Some((Bare(after), k'))
  {
    if Reading(job) {
      k, calls := ReadingNext(c, s, job, call, after, next, k');
    } else if Filling(job) {
      FillBack(c, s, job, call, k');
      k, calls := k', [];
    } else {
      PlainNext(c, s, job, call, after, next, k');
      MatchesItself(s, job);
      k, calls := job, [call];
    }
  }

  /** Matching looks only at records that never change, so it survives going back one step. */
  lemma MatchesBefore(c: Config, s: Shared, s': Shared, job: Job, u: Job)
    requires RecordsKept(c, s) && Grows(s, s') && JobKept(c, s, job) && JobMatches(s', job, u)
    ensures JobMatches(s, job, u)
  {
    match job
    case Get(kind, id, r) => if Find(s, kind, id).Some? { FoundIsMinted(c, s, kind, id); }
    case TRead(m, _, _, r) => if Find(s, Picture, m.file).Some? { FoundIsMinted(c, s, Picture, m.file); }
    case _ =>
  }

  /** Going back one step of the system, with `threads` as the uncached positions before it. */
  lemma MatchesWith(c: Config, s: State, after: Shared, threads: map<nat, Job>)
    requires Inv(c, s) && Grows(s.shared, after) && threads.Keys == s.threads.Keys
    requires forall t :: t in s.threads ==>
      JobMatches(s.shared, s.threads[t], threads[t]) || JobMatches(after, s.threads[t], threads[t])
    ensures Matches(s, State(Bare(s.shared), threads, s.log))
  {
    forall t | t in s.threads ensures JobMatches(s.shared, s.threads[t], threads[t]) {
      if !JobMatches(s.shared, s.threads[t], threads[t]) {
        MatchesBefore(c, s.shared, after, s.threads[t], threads[t]);
      }
    }
  }

  /** The calls of one thread lead from one state of the system to another that differs in that thread. */
  lemma RunThread(c: Config, u: State, t: nat, calls: seq<Call>, u': State)
    requires t in u.threads && t in u'.threads && u.log == u'.log && u'.threads == u.threads[t := u'.threads[t]]
    requires JobRun(c, u.shared, u.threads[t], calls) == Some((u'.shared, u'.threads[t]))
    ensures RunFrom(c, u, Advances(t, calls)) == Some(u')
  {
    LiftRun(c, u, t, calls);
  }

  lemma ThreadRunsTo(c: Config, s: State, t: nat, k: Job, calls: seq<Call>, u': State)
    requires t in u'.threads && u'.log == s.log
    requires JobRun(Uncached(c), Bare(s.shared), k, calls) == Some((u'.shared, u'.threads[t]))
    ensures RunFrom(Uncached(c), State(Bare(s.shared), u'.threads[t := k], s.log), Advances(t, calls)) == Some(u')
  {
    var threads := u'.threads[t := k];
    assert threads[t := u'.threads[t]] == u'.threads;
    RunThread(Uncached(c), State(Bare(s.shared), threads, s.log), t, calls, u');
  }

  lemma ThreadNextBack(c: Config, s: State, t: nat, call: Call, after: Shared, job': Job, u': State)
    returns (k: Job, calls: seq<Call>)
    requires RecordsKept(c, s.shared) && t in s.threads && JobKept(c, s.shared, s.threads[t])
    requires JobStep(c, s.shared, s.threads[t], call) == Next(after, job')
    requires t in u'.threads && JobMatches(after, job', u'.threads[t]) && u'.shared == Bare(after) && u'.log == s.log
    ensures JobMatches(s.shared, s.threads[t], k)
    ensures RunFrom(Uncached(c), State(Bare(s.shared), u'.threads[t := k], s.log), Advances(t, calls)) == Some(u')
  {
    k, calls := NextBack(c, s.shared, s.threads[t], call, after, job', u'.threads[t]);
    ThreadRunsTo(c, s, t, k, calls, u');
  }

  lemma ThreadLastBack(c: Config, s: State, t: nat, call: Call, u': State) returns (u: State, actions: seq<Action>)
    requires Inv(c, s) && t in s.threads && JobStep(c, s.shared, s.threads[t], call).Last?
    requires !Reading(s.threads[t]) && !Filling(s.threads[t])
    requires var move := JobStep(c, s.shared, s.threads[t], call);
      Matches(State(move.after, s.threads - {t}, s.log + [move.outcome]), u') && Grows(s.shared, move.after)
    ensures Matches(s, u) && RunFrom(Uncached(c), u, actions) == Some(u')
  {
    var move := JobStep(c, s.shared, s.threads[t], call);
    var threads := u'.threads[t := s.threads[t]];
    u, actions := State(Bare(s.shared), threads, s.log), [Advance(t, call)];
    PlainMoves(c, s.shared, s.threads[t], call);
    MatchesWith(c, s, move.after, threads);
    OneAction(Uncached(c), u, Advance(t, call));
    assert threads - {t} == u'.threads;
  }

  lemma OnlyPlainEnds(c: Config, s: Shared, job: Job, call: Call)
    requires JobStep(c, s, job, call).Last?
    ensures !Reading(job) && !Filling(job)
  {
  }

  lemma MatchesAt(s: State, t: nat, after: Shared, job': Job, u': State)
    requires t in s.threads && Matches(State(after, s.threads[t := job'], s.log), u')
    ensures t in u'.threads && JobMatches(after, job', u'.threads[t]) && u'.shared == Bare(after) && u'.log == s.log
    ensures u'.threads.Keys == s.threads.Keys
    ensures forall x :: x in s.threads && x != t ==> JobMatches(after, s.threads[x], u'.threads[x])
  {
    var threads := s.threads[t := job'];
    assert threads.Keys == s.threads.Keys && t in threads;
    assert forall x :: x in s.threads && x != t ==> x in threads && threads[x] == s.threads[x];
  }

  lemma ThreadGoesBack(c: Config, s: State, t: nat, call: Call, after: Shared, job': Job, u': State)
    returns (u: State, actions: seq<Action>)
    requires Inv(c, s) && t in s.threads && JobStep(c, s.shared, s.threads[t], call) == Next(after, job')
    requires Grows(s.shared, after) && Matches(State(after, s.threads[t := job'], s.log), u')
    ensures Matches(s, u) && RunFrom(Uncached(c), u, actions) == Some(u')
  {
    MatchesAt(s, t, after, job', u');
    assert JobKept(c, s.shared, s.threads[t]);
    var k, calls := ThreadNextBack(c, s, t, call, after, job', u');
    u, actions := State(Bare(s.shared), u'.threads[t := k], s.log), Advances(t, calls);
    MatchesWith(c, s, after, u'.threads[t := k]);
  }

  lemma AdvanceIs(c: Config, s: State, t: nat, call: Call)
    requires t in s.threads
    ensures var move := JobStep(c, s.shared, s.threads[t], call);
      Step(c, s, Advance(t, call)) ==
        if move.Stuck? then None
        else if move.Next? then Some(State(move.after, s.threads[t := move.job], s.log))
        else Some(State(move.after, s.threads - {t}, s.log + [move.outcome]))
  {
  }

  lemma AdvanceBack(c: Config, s: State, t: nat, call: Call, u': State) returns (u: State, actions: seq<Action>)
    requires Inv(c, s) && Step(c, s, Advance(t, call)).Some?
    requires Matches(Step(c, s, Advance(t, call)).value, u')
    ensures Matches(s, u) && RunFrom(Uncached(c), u, actions) == Some(u')
  {
    AdvanceKeeps(c, s, t, call);
    AdvanceIs(c, s, t, call);
    var move := JobStep(c, s.shared, s.threads[t], call);
    if move.Next? {
      u, actions := ThreadGoesBack(c, s, t, call, move.after, move.job, u');
    } else {
      OnlyPlainEnds(c, s.shared, s.threads[t], call);
      u, actions := ThreadLastBack(c, s, t, call, u');
    }
  }

  lemma ChangeBack(c: Config, s: State, a: Action, u': State) returns (u: State, actions: seq<Action>)
    requires Inv(c, s) && !a.Invoke? && !a.Advance? && Step(c, s, a).Some?
    requires Matches(Step(c, s, a).value, u')
    ensures Matches(s, u) && RunFrom(Uncached(c), u, actions) == Some(u')
  {
    var after := Change(s.shared, a).value;
    ChangeKeeps(c, s.shared, a);
    u, actions := State(Bare(s.shared), u'.threads, s.log), [a];
    MatchesWith(c, s, after, u'.threads);
    OneAction(Uncached(c), u, a);
    assert Change(Bare(s.shared), a) == Some(Bare(after));
  }

  lemma InvokeBack(c: Config, s: State, t: nat, job: Job, u': State) returns (u: State, actions: seq<Action>)
    requires Inv(c, s) && Step(c, s, Invoke(t, job)).Some?
    requires Matches(Step(c, s, Invoke(t, job)).value, u')
    ensures Matches(s, u) && RunFrom(Uncached(c), u, actions) == Some(u')
  {
    u, actions := State(Bare(s.shared), u'.threads - {t}, s.log), [Invoke(t, job)];
    assert JobMatches(s.shared, job, u'.threads[t]);
    assert (u'.threads - {t})[t := job] == u'.threads;
    OneAction(Uncached(c), u, Invoke(t, job));
  }

  /** Every step of the cached run has a matching stretch of uncached steps, found backwards. */
  lemma StepBack(c: Config, s: State, a: Action, u': State) returns (u: State, actions: seq<Action>)
    requires Inv(c, s) && Step(c, s, a).Some? && Matches(Step(c, s, a).value, u')
    ensures Matches(s, u) && RunFrom(Uncached(c), u, actions) == Some(u')
  {
    match a
    case Advance(t, call) => u, actions := AdvanceBack(c, s, t, call, u');
    case Invoke(t, job) => u, actions := InvokeBack(c, s, t, job, u');
    case _ => u, actions := ChangeBack(c, s, a, u');
  }

  /** A run of the cached system and a state matching its end give a run of the uncached system to that state. */
  lemma {:induction false} RunBack(c: Config, actions: seq<Action>, u': State) returns (uncached: seq<Action>)
    requires Run(c, actions).Some? && Matches(Run(c, actions).value, u')
    ensures Run(Uncached(c), uncached) == Some(u')
  {
    if actions == [] {
      uncached := [];
      assert u'.threads == map[];
    } else {
      var n := |actions| - 1;
      var s := Run(c, actions[..n]).value;
      RunKeeps(c, actions[..n]);
      var u, last := StepBack(c, s, actions[n], u');
      var first := RunBack(c, actions[..n], u);
      uncached := first + last;
      RunsJoin(Uncached(c), EMPTY, first, last);
    }
  }

  /**
   Whatever a run with caching shows, some run without caching shows too: the
   same outcomes of the same calls in the same order, and the same rows, blobs and
   messages.
   */
  lemma CachedRefinesUncached(c: Config, actions: seq<Action>)
    requires Run(c, actions).Some?
    ensures exists uncached ::
      var d := c.(caching := false);
      && Run(d, uncached).Some?
      && Run(d, uncached).value.log == Run(c, actions).value.log
      && Run(d, uncached).value.shared == Run(c, actions).value.shared.(cache := map[])
  {
    var s := Run(c, actions).value;
    var u := State(Bare(s.shared), map t | t in s.threads :: Plain(s.threads[t]), s.log);
    var uncached := RunBack(c, actions, u);
    assert Run(c.(caching := false), uncached) == Some(u);
  }
}
