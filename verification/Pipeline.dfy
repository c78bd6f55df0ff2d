/**
 The media pipeline as a state machine: uploads, thumbnail jobs and reads run as
 threads whose every database, storage, cache and publish call is one atomic
 step, in any interleaving. Calls may fail, cache entries may vanish, events may
 be deleted, and a published message may be handled any number of times.

 `Store` mints an id that was never minted before (a random UUID or a drive id),
 and event ids come from an auto-increment column that never reuses one.
 */
module Pipeline {
  import opened Wrappers
  import opened MediaNames

  type Bytes = seq<bv8>
  type BlobKey = (nat, string)

  datatype MediaType = UNSPECIFIED | IMAGE | VIDEO

  datatype Kind = Picture | Thumbnail

  /** An event row: whether uploads are open, whether media is cached, and its storage. */
  datatype Event = Event(live: bool, cache: bool, store: nat)

  datatype FileRow = FileRow(event: nat, name: string, video: bool)

  datatype ThumbRow = ThumbRow(event: nat, name: string, file: string)

  /** The `new-photo` message. */
  datatype Photo = Photo(event: nat, file: string, mt: MediaType)

  datatype Upload = Upload(event: nat, name: string, content: Bytes, contentType: string)

  /** The columns of a file or thumbnail row that a read uses. */
  datatype Row = Row(event: nat, name: string)

  /** How the thumbnail generator answered: without an error status, or with one and this body. */
  datatype Answer = Rendering | ErrorBody(body: Bytes)

  /** Where a `GetPicture` or `GetThumbnail` call stands. */
  datatype Read =
    | RRow
    | RCache(row: Row)
    | REvent(row: Row, fill: bool)
    | RBlob(row: Row, store: nat, fill: bool)
    | RFill(row: Row, data: Bytes)
    | RGot(name: string, data: Bytes)
    | RFailed

  /** What a thread is about to do next, with the local variables it still needs. */
  datatype Job =
    | UCheck(up: Upload)
    | UStore(up: Upload, mt: MediaType, evt: Event)
    | UAdd(up: Upload, mt: MediaType, evt: Event, id: string)
    | UFill(up: Upload, mt: MediaType, id: string)
    | UPublish(up: Upload, mt: MediaType, id: string)
    | Get(kind: Kind, id: string, read: Read)
    | TEvent(photo: Photo)
    | TFile(photo: Photo, evt: Event)
    | TRead(photo: Photo, evt: Event, name: string, read: Read)
    | TStore(photo: Photo, evt: Event, name: string, data: Bytes, answer: Answer)
    | TFill(photo: Photo, name: string, id: string, data: Bytes)
    | TAdd(photo: Photo, name: string, id: string)
    | TPublish(photo: Photo, id: string)

  /** What callers and the message broker see when a thread ends. */
  datatype Outcome =
    | Uploaded(up: Upload, id: string)
    | UploadFailed(up: Upload)
    | Served(kind: Kind, id: string, name: string, data: Bytes)
    | NotServed(kind: Kind, id: string)
    | Acked(photo: Photo, id: string)
    | Nacked(photo: Photo)
    | Panicked(photo: Photo)

  /** What a thumbnail was made from: its file, and the generator's answer. */
  datatype Source = Source(file: string, answer: Answer)

  /** What was stored when an id was minted; only thumbnails have a `source`. */
  datatype Origin = Origin(event: nat, store: nat, name: string, content: Bytes, source: Option<Source>)

  /**
   What all threads share. `photos` and `announced` are the `new-photo` and `new-thumbnail`
   messages published so far; `catalog` and `minted` are history: no step takes a decision
   from them except to mint fresh ids.
   */
  datatype Shared = Shared(
    events: map<nat, Event>,
    catalog: map<nat, Event>,
    blobs: map<BlobKey, Bytes>,
    minted: map<string, Origin>,
    files: map<string, FileRow>,
    thumbs: map<string, ThumbRow>,
    photos: set<Photo>,
    announced: set<string>,
    cache: map<string, Bytes>)

  /** The whole system: the threads under way and, in order, how the finished ones ended. */
  datatype State = State(shared: Shared, threads: map<nat, Job>, log: seq<Outcome>)

  /** What one call does to its thread: nothing possible, a new position, or the end. */
  datatype Move = Stuck | Next(after: Shared, job: Job) | Last(after: Shared, outcome: Outcome)

  /** How a call turned out: it went through, it failed, the store minted `id`, or `body` came with an error status. */
  datatype Call = Through | Fault | Named(id: string) | Answered(body: Bytes)

  datatype Action =
    | CreateEvent(id: nat, event: Event)
    | SetLive(id: nat, live: bool)
    | DeleteEvent(id: nat)
    | Evict(key: string)
    | Invoke(thread: nat, job: Job)
    | Advance(thread: nat, call: Call)

  /** `caching` says whether the events' `cache` column is honoured; `render` is what the thumbnail generator makes. */
  datatype Config = Config(caching: bool, render: (MediaType, Bytes) -> Bytes)

  const EMPTY: State := State(Shared(map[], map[], map[], map[], map[], map[], {}, {}, map[]), map[], [])

  function MediaOf(contentType: string): MediaType {
    if contentType in {"image/png", "image/jpeg", "image/heif"} then IMAGE
    else if contentType in {"video/avi", "video/mp4", "video/mpeg", "video/webm", "video/quicktime"} then VIDEO
    else UNSPECIFIED
  }

  function TypeOf(file: FileRow): MediaType {
    if file.video then VIDEO else IMAGE
  }

  function Find(s: Shared, kind: Kind, id: string): Option<Row> {
    match kind
    case Picture => if id in s.files then Some(Row(s.files[id].event, s.files[id].name)) else None
    case Thumbnail => if id in s.thumbs then Some(Row(s.thumbs[id].event, s.thumbs[id].name)) else None
  }

  predicate Cached(c: Config, s: Shared, event: nat) {
    c.caching && event in s.events && s.events[event].cache
  }

  function Fill(s: Shared, event: nat, id: string, data: Bytes, call: Call): Shared {
    if call.Through? then s.(cache := s.cache[Key(event, id) := data]) else s
  }

  /** Stores `content` under a fresh `id`. */
  function Store(s: Shared, id: string, origin: Origin): Shared {
    s.(blobs := s.blobs[(origin.store, id) := origin.content], minted := s.minted[id := origin])
  }

  /** The position after one call of a read that has not ended yet. */
  function ReadNext(c: Config, s: Shared, kind: Kind, id: string, r: Read, call: Call): Read
    requires !r.RGot? && !r.RFailed?
  {
    match r
    case RRow =>
      var found := Find(s, kind, id);
      if call.Fault? || found.None? then RFailed
      else if Cached(c, s, found.value.event) then RCache(found.value)
      else REvent(found.value, false)
    case RCache(row) =>
      var key := Key(row.event, id);
      if call.Through? && key in s.cache then RGot(row.name, s.cache[key]) else REvent(row, true)
    case REvent(row, fill) =>
      if call.Fault? || row.event !in s.events then RFailed
      else RBlob(row, s.events[row.event].store, fill)
    case RBlob(row, store, fill) =>
      if call.Fault? || (store, id) !in s.blobs then RFailed
      else if fill then RFill(row, s.blobs[(store, id)])
      else RGot(row.name, s.blobs[(store, id)])
    case RFill(row, data) => RGot(row.name, data)
  }

  /** What the call leaves behind: only the last position of a read that missed writes, and only to the cache. */
  function ReadEffect(s: Shared, id: string, r: Read, call: Call): Shared {
    if r.RFill? then Fill(s, r.row.event, id, r.data, call) else s
  }

  /** `Upload` checks the content type, then reads the event. */
  function CheckUpload(s: Shared, up: Upload, call: Call): Move {
    var mt := MediaOf(up.contentType);
    if mt.UNSPECIFIED? || call.Fault? || up.event !in s.events || !s.events[up.event].live
    then Last(s, UploadFailed(up))
    else Next(s, UStore(up, mt, s.events[up.event]))
  }

  function StoreUpload(s: Shared, up: Upload, mt: MediaType, evt: Event, call: Call): Move {
    match call
    case Fault => Last(s, UploadFailed(up))
    case Named(id) =>
      if id in s.minted then Stuck
      else Next(Store(s, id, Origin(up.event, evt.store, up.name, up.content, None)), UAdd(up, mt, evt, id))
    case _ => Stuck
  }

  /** Commits the row; a taken primary key makes the insert fail. */
  function AddUpload(c: Config, s: Shared, up: Upload, mt: MediaType, evt: Event, id: string, call: Call): Move {
    if call.Fault? || id in s.files then Last(s, UploadFailed(up))
    else
      Next(s.(files := s.files[id := FileRow(up.event, up.name, mt.VIDEO?)]),
           if c.caching && evt.cache then UFill(up, mt, id) else UPublish(up, mt, id))
  }

  /** Publishes `new-photo`; a failure is only logged. */
  function PublishUpload(s: Shared, up: Upload, mt: MediaType, id: string, call: Call): Move {
    Last(if call.Through? then s.(photos := s.photos + {Photo(up.event, id, mt)}) else s, Uploaded(up, id))
  }

  function FindThumbEvent(s: Shared, m: Photo, call: Call): Move {
    if call.Fault? || m.event !in s.events then Last(s, Nacked(m)) else Next(s, TFile(m, s.events[m.event]))
  }

  /** Reads the file row; a message of no known type leaves no thumbnail source to close. */
  function FindThumbFile(s: Shared, m: Photo, evt: Event, call: Call): Move {
    if call.Fault? || m.file !in s.files then Last(s, Nacked(m))
    else if m.mt.UNSPECIFIED? then Last(s, Panicked(m))
    else Next(s, TRead(m, evt, s.files[m.file].name, RRow))
  }

  /**
   What the generator's client passes on: the rendering of what was read, or the body of an
   error. Its call for images looks at the status, its call for videos does not.
   */
  function Made(c: Config, mt: MediaType, r: Read, call: Call): Option<(Bytes, Answer)>
    requires r.RGot? || r.RFailed?
  {
    match call
    case Through => if r.RGot? then Some((c.render(mt, r.data), Rendering)) else None
    case Answered(body) => if mt.VIDEO? then Some((body, ErrorBody(body))) else None
    case _ => None
  }

  /** The thumbnail generator reads the picture back through the server, then answers. */
  function MakeThumb(c: Config, s: Shared, m: Photo, evt: Event, name: string, r: Read, call: Call): Move {
    if r.RGot? || r.RFailed? then
      var made := Made(c, m.mt, r, call);
      if made.None? then Last(s, Nacked(m))
      else Next(s, TStore(m, evt, ThumbName(name), made.value.0, made.value.1))
    else Next(ReadEffect(s, m.file, r, call), TRead(m, evt, name, ReadNext(c, s, Picture, m.file, r, call)))
  }

  function StoreThumb(c: Config, s: Shared, m: Photo, evt: Event, name: string, data: Bytes, answer: Answer,
                      call: Call): Move
  {
    match call
    case Fault => Last(s, Nacked(m))
    case Named(id) =>
      if id in s.minted then Stuck
      else
        Next(Store(s, id, Origin(m.event, evt.store, name, data, Some(Source(m.file, answer)))),
             if c.caching && evt.cache then TFill(m, name, id, data) else TAdd(m, name, id))
    case _ => Stuck
  }

  function AddThumb(s: Shared, m: Photo, name: string, id: string, call: Call): Move {
    if call.Fault? || id in s.thumbs then Last(s, Nacked(m))
    else Next(s.(thumbs := s.thumbs[id := ThumbRow(m.event, name, m.file)]), TPublish(m, id))
  }

  function PublishThumb(s: Shared, m: Photo, id: string, call: Call): Move {
    if call.Fault? then Last(s, Nacked(m)) else Last(s.(announced := s.announced + {id}), Acked(m, id))
  }

  function GetMedia(c: Config, s: Shared, kind: Kind, id: string, r: Read, call: Call): Move {
    match r
    case RGot(name, data) => Last(s, Served(kind, id, name, data))
    case RFailed => Last(s, NotServed(kind, id))
    case _ => Next(ReadEffect(s, id, r, call), Get(kind, id, ReadNext(c, s, kind, id, r, call)))
  }

  /** One call of a thread that stands at `job`. */
  function JobStep(c: Config, s: Shared, job: Job, call: Call): Move {
    match job
    case UCheck(up) => CheckUpload(s, up, call)
    case UStore(up, mt, evt) => StoreUpload(s, up, mt, evt, call)
    case UAdd(up, mt, evt, id) => AddUpload(c, s, up, mt, evt, id, call)
    // What the tee copied while the blob was stored goes into the cache; a failure is only logged.
    case UFill(up, mt, id) => Next(Fill(s, up.event, id, up.content, call), UPublish(up, mt, id))
    case UPublish(up, mt, id) => PublishUpload(s, up, mt, id, call)
    case Get(kind, id, r) => GetMedia(c, s, kind, id, r, call)
    case TEvent(m) => FindThumbEvent(s, m, call)
    case TFile(m, evt) => FindThumbFile(s, m, evt, call)
    case TRead(m, evt, name, r) => MakeThumb(c, s, m, evt, name, r, call)
    case TStore(m, evt, name, data, answer) => StoreThumb(c, s, m, evt, name, data, answer, call)
    case TFill(m, name, id, data) => Next(Fill(s, m.event, id, data, call), TAdd(m, name, id))
    case TAdd(m, name, id) => AddThumb(s, m, name, id, call)
    case TPublish(m, id) => PublishThumb(s, m, id, call)
  }

  predicate Startable(s: Shared, job: Job) {
    || job.UCheck?
    || (job.Get? && job.read.RRow?)
    || (job.TEvent? && job.photo in s.photos)
  }

  /** What deletions, evictions and the like do to the shared records, or None when they do not apply. */
  function Change(s: Shared, a: Action): Option<Shared>
    requires !a.Invoke? && !a.Advance?
  {
    match a
    case CreateEvent(id, event) =>
      if id in s.catalog then None
      else Some(s.(events := s.events[id := event], catalog := s.catalog[id := event]))
    case SetLive(id, live) =>
      if id !in s.events then None else Some(s.(events := s.events[id := s.events[id].(live := live)]))
    case DeleteEvent(id) => Some(s.(events := s.events - {id}))
    case Evict(key) => Some(s.(cache := s.cache - {key}))
  }

  /** The state after one action, or None when the action is not possible. */
  function Step(c: Config, s: State, a: Action): Option<State> {
    match a
    case Invoke(t, job) =>
      if t in s.threads || !Startable(s.shared, job) then None else Some(s.(threads := s.threads[t := job]))
    case Advance(t, call) =>
      if t !in s.threads then None
      else
        (match JobStep(c, s.shared, s.threads[t], call)
         case Stuck => None
         case Next(after, job) => Some(State(after, s.threads[t := job], s.log))
         case Last(after, outcome) => Some(State(after, s.threads - {t}, s.log + [outcome])))
    case _ =>
      var changed := Change(s.shared, a);
      if changed.None? then None else Some(s.(shared := changed.value))
  }

  /** The state that `actions` lead to from `s`, or None when some action was not possible. */
  function RunFrom(c: Config, s: State, actions: seq<Action>): Option<State> {
    if actions == [] then Some(s)
    else
      var before := RunFrom(c, s, actions[..|actions| - 1]);
      if before.None? then None else Step(c, before.value, actions[|actions| - 1])
  }

  /** Runs of the system start from empty tables, storage and cache. */
  function Run(c: Config, actions: seq<Action>): Option<State> {
    RunFrom(c, EMPTY, actions)
  }
}
