/**
 The services' own code, one call after the other. Each method is proved to be
 one thread of the pipeline run by itself, so what holds of every run of the
 pipeline holds of the methods.
 */
module PipelineServices {
  import opened Wrappers
  import opened MediaNames
  import opened Pipeline
  import opened PipelineSafety
  import opened PipelineRefinement
  import opened PipelineProgress

  /** Which calls of a read go through. */
  datatype ReadFate = ReadFate(row: bool, hit: bool, event: bool, blob: bool, fill: bool)

  type ErrorStatus = n: int | 400 <= n witness 500

  /** How the generator answers, if at all: with what it makes of the picture, or with an error. */
  datatype Reply = Renders | Errors(status: ErrorStatus, body: Bytes) | Silent

  datatype Response = Response(status: int, body: Bytes)

  /** Which calls of a thread go through, the generator's reply, and the id its store mints, if any. */
  datatype Fate = Fate(event: bool, file: bool, read: ReadFate, reply: Reply, id: Option<string>,
                       fill: bool, add: bool, publish: bool)

  function Goes(through: bool): Call {
    if through then Through else Fault
  }

  function ReadCall(f: ReadFate, r: Read): Call {
    match r
    case RRow => Goes(f.row)
    case RCache(_) => Goes(f.hit)
    case REvent(_, _) => Goes(f.event)
    case RBlob(_, _, _) => Goes(f.blob)
    case RFill(_, _) => Goes(f.fill)
    case _ => Through
  }

  function ReplyCall(reply: Reply): Call {
    match reply
    case Renders => Through
    case Errors(_, body) => Answered(body)
    case Silent => Fault
  }

  function AnswerOf(reply: Reply): Answer {
    if reply.Errors? then ErrorBody(reply.body) else Rendering
  }

  /** The generator's response to a request for which it has read `r`. */
  function Respond(c: Config, mt: MediaType, r: Read, reply: Reply): Option<Response> {
    match reply
    case Renders => if r.RGot? then Some(Response(200, c.render(mt, r.data))) else None
    case Errors(status, body) => Some(Response(status, body))
    case Silent => None
  }

  function StoreCall(f: Fate): Call {
    if f.id.Some? then Named(f.id.value) else Fault
  }

  /** How the next call of a thread at `job` turns out. */
  function CallAt(f: Fate, job: Job): Call {
    match job
    case UCheck(_) => Goes(f.event)
    case UStore(_, _, _) => StoreCall(f)
    case UAdd(_, _, _, _) => Goes(f.add)
    case UFill(_, _, _) => Goes(f.fill)
    case UPublish(_, _, _) => Goes(f.publish)
    case Get(_, _, r) => ReadCall(f.read, r)
    case TEvent(_) => Goes(f.event)
    case TFile(_, _) => Goes(f.file)
    case TRead(_, _, _, r) => if r.RGot? || r.RFailed? then ReplyCall(f.reply) else ReadCall(f.read, r)
    case TStore(_, _, _, _, _) => StoreCall(f)
    case TFill(_, _, _, _) => Goes(f.fill)
    case TAdd(_, _, _) => Goes(f.add)
    case TPublish(_, _) => Goes(f.publish)
  }

  /** How many calls a thread may still make. */
  function JobRank(job: Job): nat {
    match job
    case UCheck(_) => 4
    case UStore(_, _, _) => 3
    case UAdd(_, _, _, _) => 2
    case UFill(_, _, _) => 1
    case UPublish(_, _, _) => 0
    case Get(_, _, r) => Rank(r)
    case TEvent(_) => 11
    case TFile(_, _) => 10
    case TRead(_, _, _, r) => 4 + Rank(r)
    case TStore(_, _, _, _, _) => 3
    case TFill(_, _, _, _) => 2
    case TAdd(_, _, _) => 1
    case TPublish(_, _) => 0
  }

  lemma RankFalls(c: Config, s: Shared, job: Job, call: Call)
    requires JobStep(c, s, job, call).Next?
    ensures JobRank(JobStep(c, s, job, call).job) < JobRank(job)
  {
  }

  /** A thread run to its end by itself. */
  function Alone(c: Config, s: Shared, job: Job, f: Fate): Option<(Shared, Outcome)>
    decreases JobRank(job)
  {
    match JobStep(c, s, job, CallAt(f, job))
    case Stuck => None
    case Last(after, outcome) => Some((after, outcome))
    case Next(after, next) =>
      RankFalls(c, s, job, CallAt(f, job));
      Alone(c, after, next, f)
  }

  lemma AloneNext(c: Config, s: Shared, job: Job, f: Fate, after: Shared, next: Job)
    requires JobStep(c, s, job, CallAt(f, job)) == Next(after, next)
    ensures Alone(c, s, job, f) == Alone(c, after, next, f)
  {
  }

  lemma AloneLast(c: Config, s: Shared, job: Job, f: Fate, after: Shared, outcome: Outcome)
    requires JobStep(c, s, job, CallAt(f, job)) == Last(after, outcome)
    ensures Alone(c, s, job, f) == Some((after, outcome))
  {
  }

  /** Run by itself, a thread keeps the pipeline's records and ends as they say. */
  lemma {:induction false} AloneKeeps(c: Config, s: Shared, job: Job, f: Fate)
    requires RecordsKept(c, s) && JobKept(c, s, job) && Alone(c, s, job, f).Some?
    ensures var (after, outcome) := Alone(c, s, job, f).value;
      RecordsKept(c, after) && Grows(s, after) && OutcomeKept(c, after, outcome)
    decreases JobRank(job)
  {
    JobStepKeeps(c, s, job, CallAt(f, job));
    var move := JobStep(c, s, job, CallAt(f, job));
    if move.Next? {
      RankFalls(c, s, job, CallAt(f, job));
      AloneKeeps(c, move.after, move.job, f);
    }
  }

  /** The calls a thread makes by itself. */
  lemma {:induction false} AloneCalls(c: Config, s: Shared, job: Job, f: Fate) returns (calls: seq<Call>, last: Call)
    requires Alone(c, s, job, f).Some?
    ensures JobRun(c, s, job, calls).Some?
    ensures var end := JobRun(c, s, job, calls).value;
      var (after, outcome) := Alone(c, s, job, f).value;
      JobStep(c, end.0, end.1, last) == Last(after, outcome)
    decreases JobRank(job)
  {
    var move := JobStep(c, s, job, CallAt(f, job));
    if move.Next? {
      RankFalls(c, s, job, CallAt(f, job));
      var more;
      more, last := AloneCalls(c, move.after, move.job, f);
      calls := [CallAt(f, job)] + more;
      JobCall(c, s, job, CallAt(f, job), more);
    } else {
      calls, last := [], CallAt(f, job);
    }
  }

  /** A thread run by itself is a run of the system, from any state in which it may start. */
  lemma AloneRuns(c: Config, s: State, t: nat, job: Job, f: Fate) returns (actions: seq<Action>)
    requires t !in s.threads && Startable(s.shared, job) && Alone(c, s.shared, job, f).Some?
    ensures var (after, outcome) := Alone(c, s.shared, job, f).value;
      RunFrom(c, s, actions) == Some(State(after, s.threads, s.log + [outcome]))
  {
    var calls, last := AloneCalls(c, s.shared, job, f);
    actions := Thread(t, job, calls, last);
    ThreadRuns(c, s, t, job, calls, last);
  }

  /** A read run to its end. */
  function ReadAlone(c: Config, s: Shared, kind: Kind, id: string, r: Read, f: ReadFate): (Shared, Read)
    decreases Rank(r)
  {
    if r.RGot? || r.RFailed? then (s, r)
    else ReadAlone(c, ReadEffect(s, id, r, ReadCall(f, r)), kind, id, ReadNext(c, s, kind, id, r, ReadCall(f, r)), f)
  }

  function ReadOutcome(kind: Kind, id: string, r: Read): Outcome {
    if r.RGot? then Served(kind, id, r.name, r.data) else NotServed(kind, id)
  }

  lemma ReadAloneStep(c: Config, s: Shared, kind: Kind, id: string, r: Read, f: ReadFate)
    requires !r.RGot? && !r.RFailed?
    ensures ReadAlone(c, s, kind, id, r, f) == ReadAlone(c, ReadEffect(s, id, r, ReadCall(f, r)), kind, id,
                                                         ReadNext(c, s, kind, id, r, ReadCall(f, r)), f)
  {
  }

  lemma {:induction false} GetAlone(c: Config, s: Shared, kind: Kind, id: string, r: Read, f: Fate)
    ensures var (after, end) := ReadAlone(c, s, kind, id, r, f.read);
      Alone(c, s, Get(kind, id, r), f) == Some((after, ReadOutcome(kind, id, end)))
    decreases Rank(r)
  {
    if !r.RGot? && !r.RFailed? {
      var call := ReadCall(f.read, r);
      GetAlone(c, ReadEffect(s, id, r, call), kind, id, ReadNext(c, s, kind, id, r, call), f);
    }
  }

  lemma {:induction false} PictureAlone(c: Config, s: Shared, m: Photo, evt: Event, name: string, r: Read, f: Fate)
    ensures var (after, end) := ReadAlone(c, s, Picture, m.file, r, f.read);
      Alone(c, s, TRead(m, evt, name, r), f) == Alone(c, after, TRead(m, evt, name, end), f)
    decreases Rank(r)
  {
    if !r.RGot? && !r.RFailed? {
      var call := ReadCall(f.read, r);
      PictureAlone(c, ReadEffect(s, m.file, r, call), m, evt, name, ReadNext(c, s, Picture, m.file, r, call), f);
    }
  }

  /** A read by itself keeps the records, and what it finds is what was recorded when the id was minted. */
  lemma ReadIsFaithful(c: Config, s: Shared, kind: Kind, id: string, f: ReadFate)
    requires RecordsKept(c, s)
    ensures var (after, end) := ReadAlone(c, s, kind, id, RRow, f);
      && RecordsKept(c, after)
      && (end.RGot? ==>
            && (if kind.Picture? then id in after.files else id in after.thumbs)
            && id in after.minted && after.minted[id].name == end.name && after.minted[id].content == end.data)
  {
    var fate := Fate(true, true, f, Silent, None, true, true, true);
    GetAlone(c, s, kind, id, RRow, fate);
    AloneKeeps(c, s, Get(kind, id, RRow), fate);
  }

  /** The event of a row that is found has its media cached. */
  predicate Caches(c: Config, s: Shared, row: Row) {
    c.caching && row.event in s.events && s.events[row.event].cache
  }

  /** A cache hit needs neither the event nor the storage, and changes nothing. */
  lemma HitIsServed(c: Config, s: Shared, kind: Kind, id: string, row: Row, f: ReadFate)
    requires Find(s, kind, id) == Some(row) && Caches(c, s, row) && Key(row.event, id) in s.cache && f.row && f.hit
    ensures ReadAlone(c, s, kind, id, RRow, f) == (s, RGot(row.name, s.cache[Key(row.event, id)]))
  {
    ReadAloneStep(c, s, kind, id, RRow, f);
    ReadAloneStep(c, s, kind, id, RCache(row), f);
  }

  /**
   Without a hit, a read succeeds exactly if the event and the blob are there and their calls go
   through; it then has the blob, and leaves it in the cache if the event's media is cached.
   */
  lemma MissIsFetched(c: Config, s: Shared, kind: Kind, id: string, row: Row, f: ReadFate)
    requires Find(s, kind, id) == Some(row) && f.row
    requires !(Caches(c, s, row) && f.hit && Key(row.event, id) in s.cache)
    ensures ReadAlone(c, s, kind, id, RRow, f) ==
      if f.event && row.event in s.events && f.blob && (s.events[row.event].store, id) in s.blobs then
        var blob := s.blobs[(s.events[row.event].store, id)];
        (if Caches(c, s, row) && f.fill then s.(cache := s.cache[Key(row.event, id) := blob]) else s,
         RGot(row.name, blob))
      else (s, RFailed)
  {
    var cached := Caches(c, s, row);
    ReadAloneStep(c, s, kind, id, RRow, f);
    if cached { ReadAloneStep(c, s, kind, id, RCache(row), f); }
    ReadAloneStep(c, s, kind, id, REvent(row, cached), f);
    StorageIsRead(c, s, kind, id, row, cached, f);
  }

  lemma StorageIsRead(c: Config, s: Shared, kind: Kind, id: string, row: Row, cached: bool, f: ReadFate)
    ensures ReadAlone(c, s, kind, id, REvent(row, cached), f) ==
      if f.event && row.event in s.events && f.blob && (s.events[row.event].store, id) in s.blobs then
        var blob := s.blobs[(s.events[row.event].store, id)];
        (if cached && f.fill then s.(cache := s.cache[Key(row.event, id) := blob]) else s, RGot(row.name, blob))
      else (s, RFailed)
  {
    ReadAloneStep(c, s, kind, id, REvent(row, cached), f);
    if f.event && row.event in s.events {
      var store := s.events[row.event].store;
      ReadAloneStep(c, s, kind, id, RBlob(row, store, cached), f);
      if cached && (store, id) in s.blobs {
        ReadAloneStep(c, s, kind, id, RFill(row, s.blobs[(store, id)]), f);
      }
    }
  }

  /** Without its row, or when that call fails, nothing is served. */
  lemma NoRowIsServed(c: Config, s: Shared, kind: Kind, id: string, f: ReadFate)
    requires Find(s, kind, id) == None || !f.row
    ensures ReadAlone(c, s, kind, id, RRow, f) == (s, RFailed)
  {
    ReadAloneStep(c, s, kind, id, RRow, f);
  }

  lemma CheckAlone(c: Config, s: Shared, up: Upload, f: Fate)
    ensures
      if MediaOf(up.contentType) != UNSPECIFIED && f.event && up.event in s.events && s.events[up.event].live then
        Alone(c, s, UCheck(up), f) == Alone(c, s, UStore(up, MediaOf(up.contentType), s.events[up.event]), f)
      else
        Alone(c, s, UCheck(up), f) == Some((s, UploadFailed(up)))
  {
  }

  lemma StoreAlone(c: Config, s: Shared, up: Upload, mt: MediaType, evt: Event, f: Fate)
    requires f.id.Some? ==> f.id.value !in s.minted
    ensures Alone(c, s, UStore(up, mt, evt), f) ==
      if f.id.None? then Some((s, UploadFailed(up)))
      else Alone(c, Store(s, f.id.value, Origin(up.event, evt.store, up.name, up.content, None)),
                 UAdd(up, mt, evt, f.id.value), f)
  {
  }

  lemma GotAlone(c: Config, s: Shared, m: Photo, evt: Event, name: string, r: Read, f: Fate)
    requires r.RGot? || r.RFailed?
    ensures var made := Made(c, m.mt, r, ReplyCall(f.reply));
      Alone(c, s, TRead(m, evt, name, r), f) ==
      if made.None? then Some((s, Nacked(m)))
      else Alone(c, s, TStore(m, evt, ThumbName(name), made.value.0, made.value.1), f)
  {
  }

  /** A read run to its end is over. */
  lemma {:induction false} ReadAloneEnds(c: Config, s: Shared, kind: Kind, id: string, r: Read, f: ReadFate)
    ensures var end := ReadAlone(c, s, kind, id, r, f).1; end.RGot? || end.RFailed?
    decreases Rank(r)
  {
    if !r.RGot? && !r.RFailed? {
      var call := ReadCall(f, r);
      ReadAloneEnds(c, ReadEffect(s, id, r, call), kind, id, ReadNext(c, s, kind, id, r, call), f);
    }
  }

  lemma AddAlone(c: Config, s: Shared, up: Upload, mt: MediaType, evt: Event, id: string, f: Fate)
    ensures
      if f.add && id !in s.files then
        Alone(c, s, UAdd(up, mt, evt, id), f)
        == Alone(c, s.(files := s.files[id := FileRow(up.event, up.name, mt.VIDEO?)]), Added(c, up, mt, evt, id), f)
      else
        Alone(c, s, UAdd(up, mt, evt, id), f) == Some((s, UploadFailed(up)))
  {
  }

  /** Where an upload goes once its row is in. */
  function Added(c: Config, up: Upload, mt: MediaType, evt: Event, id: string): Job {
    if c.caching && evt.cache then UFill(up, mt, id) else UPublish(up, mt, id)
  }

  /** When an upload succeeds: a known type, an open event, and no failure of the calls that count. */
  predicate Accepts(events: map<nat, Event>, up: Upload, f: Fate) {
    && (Stands(up.contentType, IMAGE) || Stands(up.contentType, VIDEO))
    && f.event && up.event in events && events[up.event].live && f.id.Some? && f.add
  }

  /** What the generator's client passes on for `m`, after a read that goes as `f` says. */
  function MadeFor(c: Config, s: Shared, m: Photo, f: Fate): Option<Bytes> {
    var r := ReadAlone(c, s, Picture, m.file, RRow, f.read).1;
    ReadAloneEnds(c, s, Picture, m.file, RRow, f.read);
    var made := Made(c, m.mt, r, ReplyCall(f.reply));
    if made.None? then None else Some(made.value.0)
  }

  lemma MadeAlone(c: Config, s: Shared, m: Photo, evt: Event, name: string, f: Fate)
    ensures var after, made := ReadAlone(c, s, Picture, m.file, RRow, f.read).0, MadeFor(c, s, m, f);
      Alone(c, s, TRead(m, evt, name, RRow), f) ==
      if made.None? then Some((after, Nacked(m)))
      else Alone(c, after, TStore(m, evt, ThumbName(name), made.value, AnswerOf(f.reply)), f)
  {
    var (after, end) := ReadAlone(c, s, Picture, m.file, RRow, f.read);
    PictureAlone(c, s, m, evt, name, RRow, f);
    ReadAloneEnds(c, s, Picture, m.file, RRow, f.read);
    GotAlone(c, after, m, evt, name, end, f);
  }

  lemma OpeningAlone(c: Config, s: Shared, m: Photo, f: Fate)
    requires m.mt != UNSPECIFIED
    ensures
      if f.event && m.event in s.events && f.file && m.file in s.files then
        Alone(c, s, TEvent(m), f) == Alone(c, s, TRead(m, s.events[m.event], s.files[m.file].name, RRow), f)
      else
        Alone(c, s, TEvent(m), f) == Some((s, Nacked(m)))
  {
    if f.event && m.event in s.events {
      AloneNext(c, s, TEvent(m), f, s, TFile(m, s.events[m.event]));
    }
  }

  /** When a job is acknowledged: something was made, and no failure of the calls that count. */
  predicate Finishes(c: Config, s: Shared, m: Photo, f: Fate) {
    && f.event && m.event in s.events && f.file && MadeFor(c, s, m, f).Some?
    && f.id.Some? && f.add && f.publish
  }

  /** The bytes an acknowledged job leaves behind: the rendering, or a video's error body. */
  lemma AckedShows(c: Config, s: Shared, m: Photo, id: string, reply: Reply)
    requires RecordsKept(c, s) && PhotoKept(s, m) && OutcomeKept(c, s, Acked(m, id))
    requires id in s.minted && s.minted[id].source == Some(Source(m.file, AnswerOf(reply)))
    ensures m.file in s.minted && s.minted[id].name == ThumbName(s.files[m.file].name)
    ensures s.minted[id].content == if reply.Errors? then reply.body else c.render(m.mt, s.minted[m.file].content)
    ensures reply.Errors? ==> m.mt == VIDEO
  {
    var r := s.thumbs[id];
    assert ThumbMade(c, s, Photo(r.event, r.file, TypeOf(s.files[r.file])), r.name, id);
  }

  /** The database, the storages, the cache and the message system, and the services that use them. */
  class Services {
    const c: Config
    var events: map<nat, Event>
    var blobs: map<BlobKey, Bytes>
    var files: map<string, FileRow>
    var thumbs: map<string, ThumbRow>
    var photos: set<Photo>
    var announced: set<string>
    var cache: map<string, Bytes>
    ghost var catalog: map<nat, Event>
    ghost var minted: map<string, Origin>

    ghost function Records(): Shared
      reads this
    {
      Shared(events, catalog, blobs, minted, files, thumbs, photos, announced, cache)
    }

    ghost predicate Valid()
      reads this
    {
      RecordsKept(c, Records())
    }

    constructor (c: Config)
      ensures Valid() && Records() == EMPTY.shared
    {
      this.c := c;
      events, blobs, files, thumbs, photos, announced, cache := map[], map[], map[], map[], {}, {}, map[];
      catalog, minted := map[], map[];
    }

    // ---- Calls, each one step ----

    method GetEvent(id: nat, through: bool) returns (evt: Option<Event>)
      ensures evt == if through && id in events then Some(events[id]) else None
    {
      evt := if through && id in events then Some(events[id]) else None;
    }

    /** A file row, with whether its event caches. */
    method GetFileInfo(id: string, through: bool) returns (r: Option<(FileRow, bool)>)
      ensures r == if through && id in files then Some((files[id], Cached(c, Records(), files[id].event))) else None
    {
      if !through || id !in files { return None; }
      var row := files[id];
      return Some((row, c.caching && row.event in events && events[row.event].cache));
    }

    method GetThumbnailInfo(id: string, through: bool) returns (r: Option<(ThumbRow, bool)>)
      ensures r == if through && id in thumbs then Some((thumbs[id], Cached(c, Records(), thumbs[id].event))) else None
    {
      if !through || id !in thumbs { return None; }
      var row := thumbs[id];
      return Some((row, c.caching && row.event in events && events[row.event].cache));
    }

    method CacheGet(key: string, through: bool) returns (hit: Option<Bytes>)
      ensures hit == if through && key in cache then Some(cache[key]) else None
    {
      hit := if through && key in cache then Some(cache[key]) else None;
    }

    method CacheSet(event: nat, id: string, data: Bytes, through: bool)
      modifies `cache
      ensures Records() == Fill(old(Records()), event, id, data, Goes(through))
    {
      if through { cache := cache[Key(event, id) := data]; }
    }

    method Fetch(store: nat, id: string, through: bool) returns (data: Option<Bytes>)
      ensures data == if through && (store, id) in blobs then Some(blobs[(store, id)]) else None
    {
      data := if through && (store, id) in blobs then Some(blobs[(store, id)]) else None;
    }

    /** Stores what it reads from a stream under the id it mints, and returns what a tee has copied meanwhile. */
    method Put(store: nat, data: Bytes, minting: Option<string>, ghost o: Origin)
      returns (id: Option<string>, copy: Bytes)
      requires (minting.Some? ==> minting.value !in minted) && o.store == store && o.content == data
      modifies `blobs, `minted
      ensures id == minting && (id.Some? ==> copy == data)
      ensures Records() == if id.Some? then Store(old(Records()), id.value, o) else old(Records())
    {
      id, copy := minting, [];
      if id.Some? {
        blobs, minted, copy := blobs[(store, id.value) := data], minted[id.value := o], data;
      }
    }

    // ---- The services ----

    /** From the row on: the cache, or the event's storage and back into the cache. */
    method ReadThrough(row: Row, id: string, cached: bool, f: ReadFate, ghost kind: Kind)
      returns (r: Option<(string, Bytes)>)
      modifies `cache
      ensures var start := if cached then RCache(row) else REvent(row, false);
        ReadAlone(c, old(Records()), kind, id, start, f)
        == (Records(), if r.Some? then RGot(r.value.0, r.value.1) else RFailed)
    {
      if cached {
        ReadAloneStep(c, Records(), kind, id, RCache(row), f);
        var hit := CacheGet(Key(row.event, id), f.hit);
        if hit.Some? { return Some((row.name, hit.value)); }
      }
      r := ReadStorage(row, id, cached, f, kind);
    }

    /** The event's storage, and back into the cache. */
    method ReadStorage(row: Row, id: string, cached: bool, f: ReadFate, ghost kind: Kind)
      returns (r: Option<(string, Bytes)>)
      modifies `cache
      ensures ReadAlone(c, old(Records()), kind, id, REvent(row, cached), f)
           == (Records(), if r.Some? then RGot(r.value.0, r.value.1) else RFailed)
    {
      ReadAloneStep(c, Records(), kind, id, REvent(row, cached), f);
      var evt := GetEvent(row.event, f.event);
      if evt.None? { return None; }
      ReadAloneStep(c, Records(), kind, id, RBlob(row, evt.value.store, cached), f);
      var data := Fetch(evt.value.store, id, f.blob);
      if data.None? { return None; }
      if cached {
        ReadAloneStep(c, Records(), kind, id, RFill(row, data.value), f);
        CacheSet(row.event, id, data.value, f.fill);
      }
      return Some((row.name, data.value));
    }

    method GetThumbnail(id: string, f: ReadFate) returns (r: Option<(string, Bytes)>)
      requires Valid()
      modifies `cache
      ensures Valid()
      ensures ReadAlone(c, old(Records()), Thumbnail, id, RRow, f)
           == (Records(), if r.Some? then RGot(r.value.0, r.value.1) else RFailed)
      ensures r.Some? ==> id in thumbs && id in minted && r.value == (minted[id].name, minted[id].content)
    {
      ghost var s := Records();
      ReadAloneStep(c, s, Thumbnail, id, RRow, f);
      var ti := GetThumbnailInfo(id, f.row);
      r := None;
      if ti.Some? {
        r := ReadThrough(Row(ti.value.0.event, ti.value.0.name), id, ti.value.1, f, Thumbnail);
      }
      ReadIsFaithful(c, s, Thumbnail, id, f);
    }

    method GetPicture(id: string, f: ReadFate) returns (r: Option<(string, Bytes)>)
      requires Valid()
      modifies `cache
      ensures Valid()
      ensures ReadAlone(c, old(Records()), Picture, id, RRow, f)
           == (Records(), if r.Some? then RGot(r.value.0, r.value.1) else RFailed)
      ensures r.Some? ==> id in files && id in minted && r.value == (minted[id].name, minted[id].content)
    {
      ghost var s := Records();
      ReadAloneStep(c, s, Picture, id, RRow, f);
      var fi := GetFileInfo(id, f.row);
      r := None;
      if fi.Some? {
        r := ReadThrough(Row(fi.value.0.event, fi.value.0.name), id, fi.value.1, f, Picture);
      }
      ReadIsFaithful(c, s, Picture, id, f);
    }

    /** An insert fails on a taken primary key. */
    method AddFileInfo(id: string, row: FileRow, through: bool) returns (added: bool)
      modifies `files
      ensures added <==> through && id !in old(files)
      ensures Records() == if added then old(Records()).(files := old(files)[id := row]) else old(Records())
    {
      added := through && id !in files;
      if added { files := files[id := row]; }
    }

    method AddThumbnailInfo(id: string, row: ThumbRow, through: bool) returns (added: bool)
      modifies `thumbs
      ensures added <==> through && id !in old(thumbs)
      ensures Records() == if added then old(Records()).(thumbs := old(thumbs)[id := row]) else old(Records())
    {
      added := through && id !in thumbs;
      if added { thumbs := thumbs[id := row]; }
    }

    method PublishPhoto(m: Photo, through: bool)
      modifies `photos
      ensures Records() == if through then old(Records()).(photos := old(photos) + {m}) else old(Records())
    {
      if through { photos := photos + {m}; }
    }

    method PublishThumbnail(id: string, through: bool) returns (sent: bool)
      modifies `announced
      ensures sent == through
      ensures Records() == if sent then old(Records()).(announced := old(announced) + {id}) else old(Records())
    {
      sent := through;
      if sent { announced := announced + {id}; }
    }

    /** Stores the upload and commits its row; the id, and what the tee copied, or None. */
    method StoreUpload(up: Upload, mt: MediaType, evt: Event, f: Fate) returns (r: Option<(string, Bytes)>)
      requires f.id.Some? ==> f.id.value !in minted && f.id.value !in files
      modifies `blobs, `minted, `files
      ensures r.Some? <==> f.id.Some? && f.add
      ensures files == if r.Some? then old(files)[r.value.0 := FileRow(up.event, up.name, mt == VIDEO)] else old(files)
      ensures r.Some? ==> f.id == Some(r.value.0) && (c.caching && evt.cache ==> r.value.1 == up.content)
      ensures
        if r.Some? then
          Alone(c, old(Records()), UStore(up, mt, evt), f) == Alone(c, Records(), Added(c, up, mt, evt, r.value.0), f)
        else
          Alone(c, old(Records()), UStore(up, mt, evt), f) == Some((Records(), UploadFailed(up)))
    {
      ghost var o := Origin(up.event, evt.store, up.name, up.content, None);
      StoreAlone(c, Records(), up, mt, evt, f);
      var id, copy := Put(evt.store, up.content, f.id, o);
      if id.None? { return None; }
      AddAlone(c, Records(), up, mt, evt, id.value, f);
      var added := AddFileInfo(id.value, FileRow(up.event, up.name, mt == VIDEO), f.add);
      if !added { return None; }
      return Some((id.value, if c.caching && evt.cache then copy else []));
    }

    /** Puts the copy in the cache, if the event caches, and publishes the message; failures are only logged. */
    method AnnounceUpload(up: Upload, mt: MediaType, evt: Event, id: string, copy: Bytes, f: Fate)
      requires c.caching && evt.cache ==> copy == up.content
      modifies `cache, `photos
      ensures photos == if f.publish then old(photos) + {Photo(up.event, id, mt)} else old(photos)
      ensures cache ==
        if c.caching && evt.cache && f.fill then old(cache)[Key(up.event, id) := up.content] else old(cache)
      ensures Alone(c, old(Records()), Added(c, up, mt, evt, id), f) == Some((Records(), Uploaded(up, id)))
    {
      ghost var s := Records();
      if c.caching && evt.cache {
        CacheSet(up.event, id, copy, f.fill);
        AloneNext(c, s, UFill(up, mt, id), f, Records(), UPublish(up, mt, id));
      }
      s := Records();
      PublishPhoto(Photo(up.event, id, mt), f.publish);
      AloneLast(c, s, UPublish(up, mt, id), f, Records(), Uploaded(up, id));
    }

    /** One upload, from the content type to the message. */
    method Upload(up: Upload, f: Fate) returns (outcome: Outcome)
      requires Valid() && (f.id.Some? ==> f.id.value !in minted)
      modifies `blobs, `minted, `files, `cache, `photos
      ensures Valid() && Alone(c, old(Records()), UCheck(up), f) == Some((Records(), outcome))
      ensures outcome == if Accepts(old(events), up, f) then Uploaded(up, f.id.value) else UploadFailed(up)
      ensures
        if Accepts(old(events), up, f) then
          var image := up.contentType in {"image/png", "image/jpeg", "image/heif"};
          var video := up.contentType in {"video/avi", "video/mp4", "video/mpeg", "video/webm", "video/quicktime"};
          && image != video
          && files == old(files)[f.id.value := FileRow(up.event, up.name, video)]
          && photos == if f.publish then old(photos) + {Photo(up.event, f.id.value, if video then VIDEO else IMAGE)}
                       else old(photos)
        else files == old(files) && photos == old(photos)
      ensures cache ==
        if Accepts(old(events), up, f) && c.caching && old(events)[up.event].cache && f.fill then
          old(cache)[Key(up.event, f.id.value) := up.content]
        else old(cache)
    {
      StandsFor(up.contentType, MediaOf(up.contentType));
      ghost var s := Records();
      outcome := RunUpload(up, f);
      AloneKeeps(c, s, UCheck(up), f);
    }

    method RunUpload(up: Upload, f: Fate) returns (outcome: Outcome)
      requires f.id.Some? ==> f.id.value !in minted && f.id.value !in files
      modifies `blobs, `minted, `files, `cache, `photos
      ensures Alone(c, old(Records()), UCheck(up), f) == Some((Records(), outcome))
      ensures outcome == if Accepts(old(events), up, f) then Uploaded(up, f.id.value) else UploadFailed(up)
      ensures
        if Accepts(old(events), up, f) then
          var mt := MediaOf(up.contentType);
          && files == old(files)[f.id.value := FileRow(up.event, up.name, mt == VIDEO)]
          && photos == if f.publish then old(photos) + {Photo(up.event, f.id.value, mt)} else old(photos)
        else files == old(files) && photos == old(photos)
      ensures cache ==
        if Accepts(old(events), up, f) && c.caching && old(events)[up.event].cache && f.fill then
          old(cache)[Key(up.event, f.id.value) := up.content]
        else old(cache)
    {
      CheckAlone(c, Records(), up, f);
      StandsFor(up.contentType, MediaOf(up.contentType));
      outcome := UploadFailed(up);
      var mt := MediaOf(up.contentType);
      if mt == UNSPECIFIED { return; }
      var evt := GetEvent(up.event, f.event);
      if evt.None? { return; }
      if !evt.value.live { return; }
      var stored := StoreUpload(up, mt, evt.value, f);
      if stored.None? { return; }
      AnnounceUpload(up, mt, evt.value, stored.value.0, stored.value.1, f);
      return Uploaded(up, stored.value.0);
    }

    /** One request to the generator, which reads the picture back through the server before it answers. */
    method AskGenerator(mt: MediaType, file: string, f: Fate) returns (response: Option<Response>)
      requires Valid()
      modifies `cache
      ensures Valid()
      ensures var (after, end) := ReadAlone(c, old(Records()), Picture, file, RRow, f.read);
        Records() == after && response == Respond(c, mt, end, f.reply)
    {
      var picture := GetPicture(file, f.read);
      match f.reply {
        case Silent => return None;
        case Errors(status, body) => return Some(Response(status, body));
        case Renders =>
          if picture.None? { return None; }
          var render := c.render;
          return Some(Response(200, render(mt, picture.value.1)));
      }
    }

    /** An image's thumbnail; None on an error, which an error status is. */
    method ThumbImage(file: string, f: Fate) returns (thumbnail: Option<Bytes>)
      requires Valid()
      modifies `cache
      ensures Valid() && Records() == ReadAlone(c, old(Records()), Picture, file, RRow, f.read).0
      ensures thumbnail == MadeFor(c, old(Records()), Photo(0, file, IMAGE), f)
      ensures thumbnail.Some? ==>
        && f.reply == Renders && file in minted
        && thumbnail.value == c.render(IMAGE, minted[file].content)
    {
      ReadIsFaithful(c, Records(), Picture, file, f.read);
      var response := AskGenerator(IMAGE, file, f);
      if response.None? { return None; }
      if response.value.status >= 400 { return None; }
      return Some(response.value.body);
    }

    /** A video's thumbnail; None on an error, which an error status is not. */
    method ThumbVideo(file: string, f: Fate) returns (thumbnail: Option<Bytes>)
      requires Valid()
      modifies `cache
      ensures Valid() && Records() == ReadAlone(c, old(Records()), Picture, file, RRow, f.read).0
      ensures thumbnail == MadeFor(c, old(Records()), Photo(0, file, VIDEO), f)
      ensures f.reply.Errors? ==> thumbnail == Some(f.reply.body)
      ensures thumbnail.Some? && !f.reply.Errors? ==>
        f.reply == Renders && file in minted && thumbnail.value == c.render(VIDEO, minted[file].content)
    {
      ReadIsFaithful(c, Records(), Picture, file, f.read);
      var response := AskGenerator(VIDEO, file, f);
      if response.None? { return None; }
      return Some(response.value.body);
    }

    /** The thumbnail of a picture of a known type, by the call for its type; None on an error. */
    method Generate(m: Photo, evt: Event, name: string, f: Fate) returns (thumbnail: Option<Bytes>)
      requires Valid() && m.mt != UNSPECIFIED
      modifies `cache
      ensures thumbnail == MadeFor(c, old(Records()), m, f)
      ensures
        if thumbnail.Some? then
          Alone(c, old(Records()), TRead(m, evt, name, RRow), f)
          == Alone(c, Records(), TStore(m, evt, ThumbName(name), thumbnail.value, AnswerOf(f.reply)), f)
        else
          Alone(c, old(Records()), TRead(m, evt, name, RRow), f) == Some((Records(), Nacked(m)))
    {
      MadeAlone(c, Records(), m, evt, name, f);
      match m.mt {
        case IMAGE => thumbnail := ThumbImage(m.file, f);
        case VIDEO => thumbnail := ThumbVideo(m.file, f);
      }
    }

    /** Stores the thumbnail and, if the event caches, what the tee copied; the id, or None. */
    method StoreThumbnail(m: Photo, evt: Event, name: string, data: Bytes, f: Fate) returns (id: Option<string>)
      requires f.id.Some? ==> f.id.value !in minted
      modifies `blobs, `minted, `cache
      ensures id == f.id
      ensures id.Some? ==> id.value in minted && minted[id.value].source == Some(Source(m.file, AnswerOf(f.reply)))
      ensures id.Some? && c.caching && evt.cache && f.fill ==> Key(m.event, id.value) in cache
      ensures
        if id.Some? then
          Alone(c, old(Records()), TStore(m, evt, name, data, AnswerOf(f.reply)), f)
          == Alone(c, Records(), TAdd(m, name, id.value), f)
        else
          Alone(c, old(Records()), TStore(m, evt, name, data, AnswerOf(f.reply)), f) == Some((Records(), Nacked(m)))
    {
      ghost var s, answer := Records(), AnswerOf(f.reply);
      var copy;
      id, copy := Put(evt.store, data, f.id, Origin(m.event, evt.store, name, data, Some(Source(m.file, answer))));
      if id.None? {
        AloneLast(c, s, TStore(m, evt, name, data, answer), f, Records(), Nacked(m));
        return;
      }
      assert Records().minted == minted;
      if c.caching && evt.cache {
        AloneNext(c, s, TStore(m, evt, name, data, answer), f, Records(), TFill(m, name, id.value, data));
        s := Records();
        CacheSet(m.event, id.value, copy, f.fill);
        AloneNext(c, s, TFill(m, name, id.value, data), f, Records(), TAdd(m, name, id.value));
      } else {
        AloneNext(c, s, TStore(m, evt, name, data, answer), f, Records(), TAdd(m, name, id.value));
      }
    }

    /** Commits the thumbnail's row and announces it. */
    method AnnounceThumbnail(m: Photo, name: string, id: string, f: Fate) returns (outcome: Outcome)
      requires id !in thumbs
      modifies `thumbs, `announced
      ensures Alone(c, old(Records()), TAdd(m, name, id), f) == Some((Records(), outcome))
      ensures outcome == if f.add && f.publish then Acked(m, id) else Nacked(m)
    {
      ghost var s := Records();
      var added := AddThumbnailInfo(id, ThumbRow(m.event, name, m.file), f.add);
      if !added {
        AloneLast(c, s, TAdd(m, name, id), f, Records(), Nacked(m));
        return Nacked(m);
      }
      AloneNext(c, s, TAdd(m, name, id), f, Records(), TPublish(m, id));
      s := Records();
      var sent := PublishThumbnail(id, f.publish);
      outcome := if sent then Acked(m, id) else Nacked(m);
      AloneLast(c, s, TPublish(m, id), f, Records(), outcome);
    }

    /** Stores the thumbnail under `name`, commits its row and announces it. */
    method DeliverThumbnail(m: Photo, evt: Event, name: string, data: Bytes, f: Fate) returns (outcome: Outcome)
      requires f.id.Some? ==> f.id.value !in minted && f.id.value !in thumbs
      modifies `blobs, `minted, `thumbs, `cache, `announced
      ensures Alone(c, old(Records()), TStore(m, evt, name, data, AnswerOf(f.reply)), f) == Some((Records(), outcome))
      ensures outcome == if f.id.Some? && f.add && f.publish then Acked(m, f.id.value) else Nacked(m)
      ensures outcome.Acked? ==>
        f.id.value in minted && minted[f.id.value].source == Some(Source(m.file, AnswerOf(f.reply)))
      ensures outcome.Acked? && c.caching && evt.cache && f.fill ==> Key(m.event, f.id.value) in cache
    {
      outcome := Nacked(m);
      var id := StoreThumbnail(m, evt, name, data, f);
      if id.None? { return; }
      outcome := AnnounceThumbnail(m, name, id.value, f);
    }

    /** From the generator on. */
    method MakeThumbnail(m: Photo, evt: Event, name: string, f: Fate) returns (outcome: Outcome)
      requires Valid() && m.mt != UNSPECIFIED
      requires f.id.Some? ==> f.id.value !in minted && f.id.value !in thumbs
      modifies `blobs, `minted, `thumbs, `cache, `announced
      ensures Alone(c, old(Records()), TRead(m, evt, name, RRow), f) == Some((Records(), outcome))
      ensures outcome ==
        if MadeFor(c, old(Records()), m, f).Some? && f.id.Some? && f.add && f.publish then Acked(m, f.id.value)
        else Nacked(m)
      ensures outcome.Acked? ==>
        f.id.value in minted && minted[f.id.value].source == Some(Source(m.file, AnswerOf(f.reply)))
      ensures outcome.Acked? && c.caching && evt.cache && f.fill ==> Key(m.event, f.id.value) in cache
    {
      outcome := Nacked(m);
      var thumbnail := Generate(m, evt, name, f);
      if thumbnail.None? { return; }
      outcome := DeliverThumbnail(m, evt, ThumbName(name), thumbnail.value, f);
    }

    /**
     One thumbnail job, and how its message is answered. An acknowledged job has left the
     rendering of its picture, or, for a video, the body of the generator's error.
     */
    method Thumb(m: Photo, f: Fate) returns (outcome: Outcome)
      requires Valid() && m in photos && (f.id.Some? ==> f.id.value !in minted)
      modifies `blobs, `minted, `thumbs, `cache, `announced
      ensures Valid() && Alone(c, old(Records()), TEvent(m), f) == Some((Records(), outcome))
      ensures outcome == if Finishes(c, old(Records()), m, f) then Acked(m, f.id.value) else Nacked(m)
      ensures outcome.Acked? ==>
        && f.id.value in thumbs && thumbs[f.id.value].file == m.file && m.file in files && m.file in minted
        && f.id.value in minted && minted[f.id.value].name == ThumbName(files[m.file].name)
        && minted[f.id.value].content ==
             (if f.reply.Errors? then f.reply.body else c.render(m.mt, minted[m.file].content))
        && (f.reply.Errors? ==> m.mt == VIDEO)
      ensures outcome.Acked? && c.caching && events[m.event].cache && f.fill ==>
        var key := Key(m.event, f.id.value); key in cache && cache[key] == minted[f.id.value].content
    {
      ghost var s := Records();
      assert PhotoKept(s, m);
      outcome := RunThumb(m, f);
      AloneKeeps(c, s, TEvent(m), f);
      if outcome.Acked? {
        assert PhotoKept(Records(), m);
        AckedShows(c, Records(), m, f.id.value, f.reply);
        assert CacheKept(Records());
      }
    }

    method RunThumb(m: Photo, f: Fate) returns (outcome: Outcome)
      requires Valid() && m.mt != UNSPECIFIED && m.file in files
      requires f.id.Some? ==> f.id.value !in minted && f.id.value !in thumbs
      modifies `blobs, `minted, `thumbs, `cache, `announced
      ensures Alone(c, old(Records()), TEvent(m), f) == Some((Records(), outcome))
      ensures outcome == if Finishes(c, old(Records()), m, f) then Acked(m, f.id.value) else Nacked(m)
      ensures outcome.Acked? ==>
        f.id.value in minted && minted[f.id.value].source == Some(Source(m.file, AnswerOf(f.reply)))
      ensures outcome.Acked? && c.caching && old(events)[m.event].cache && f.fill ==> Key(m.event, f.id.value) in cache
    {
      OpeningAlone(c, Records(), m, f);
      outcome := Nacked(m);
      var evt := GetEvent(m.event, f.event);
      if evt.None? { return; }
      var fi := GetFileInfo(m.file, f.file);
      if fi.None? { return; }
      outcome := MakeThumbnail(m, evt.value, fi.value.0.name, f);
    }
  }
}
