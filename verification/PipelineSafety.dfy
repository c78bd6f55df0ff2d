/** What every reachable state of the pipeline keeps. */
module PipelineSafety {
  import opened Wrappers
  import opened MediaNames
  import opened Pipeline

  /** Every event on record has the storage it was created with. */
  ghost predicate EventsKept(s: Shared) {
    forall e :: e in s.events ==>
      e in s.catalog && s.events[e].store == s.catalog[e].store && s.events[e].cache == s.catalog[e].cache
  }

  /** Every minted id has its bytes in the storage of its event. */
  ghost predicate BlobsKept(s: Shared) {
    && (forall k :: k in s.blobs ==> k.1 in s.minted)
    && forall id :: id in s.minted ==>
      var o := s.minted[id];
      && o.event in s.catalog && o.store == s.catalog[o.event].store
      && (o.store, id) in s.blobs && s.blobs[(o.store, id)] == o.content
  }

  ghost predicate FilesKept(s: Shared) {
    forall id :: id in s.files ==> FileKept(s, id, s.files[id])
  }

  ghost predicate FileKept(s: Shared, id: string, f: FileRow) {
    id in s.minted && s.minted[id].event == f.event && s.minted[id].name == f.name && s.minted[id].source == None
  }

  /** A thumbnail's bytes are the rendering of its picture, or the body of an error, which only videos let pass. */
  ghost predicate DataKept(c: Config, s: Shared, m: Photo, data: Bytes, answer: Answer) {
    && m.file in s.minted
    && match answer
       case Rendering => data == c.render(m.mt, s.minted[m.file].content)
       case ErrorBody(body) => m.mt == VIDEO && data == body
  }

  /** What the store recorded under `id` is the thumbnail of file `m.file`, made for event `m.event`. */
  ghost predicate ThumbMade(c: Config, s: Shared, m: Photo, name: string, id: string) {
    && PhotoKept(s, m) && id in s.minted
    && var o, f := s.minted[id], s.files[m.file];
       && o.event == m.event && o.name == name && name == ThumbName(f.name)
       && o.source.Some? && o.source.value.file == m.file
       && DataKept(c, s, m, o.content, o.source.value.answer)
  }

  ghost predicate ThumbsKept(c: Config, s: Shared) {
    forall id :: id in s.thumbs ==>
      var r := s.thumbs[id];
      r.file in s.files && ThumbMade(c, s, Photo(r.event, r.file, TypeOf(s.files[r.file])), r.name, id)
  }

  /** Published messages name committed rows and carry the row's media type. */
  ghost predicate PhotoKept(s: Shared, m: Photo) {
    m.file in s.files && s.files[m.file].event == m.event && m.mt == TypeOf(s.files[m.file])
  }

  ghost predicate MessagesKept(s: Shared) {
    && (forall m :: m in s.photos ==> PhotoKept(s, m))
    && forall id :: id in s.announced ==> id in s.thumbs
  }

  /** Cached bytes are the bytes stored when the id was minted. */
  ghost predicate CacheKept(s: Shared) {
    forall e: nat, id :: Key(e, id) in s.cache ==>
      id in s.minted && s.minted[id].event == e && s.cache[Key(e, id)] == s.minted[id].content
  }

  ghost predicate OutcomeKept(c: Config, s: Shared, o: Outcome) {
    match o
    case Uploaded(up, id) => AddedKept(s, up, MediaOf(up.contentType), id)
    case Served(kind, id, name, data) =>
      && id in s.minted && s.minted[id].name == name && s.minted[id].content == data
      && (if kind.Picture? then id in s.files else id in s.thumbs)
    case Acked(m, id) => id in s.thumbs && s.thumbs[id].file == m.file && s.thumbs[id].event == m.event
    case Panicked(_) => false
    case _ => true
  }

  ghost predicate ReadKept(s: Shared, kind: Kind, id: string, r: Read) {
    match r
    case RRow => true
    case RCache(row) => Find(s, kind, id) == Some(row)
    case REvent(row, _) => Find(s, kind, id) == Some(row)
    case RBlob(row, store, _) => Find(s, kind, id) == Some(row) && id in s.minted && store == s.minted[id].store
    case RFill(row, data) => Find(s, kind, id) == Some(row) && id in s.minted && data == s.minted[id].content
    case RGot(name, data) =>
      && Find(s, kind, id).Some? && name == Find(s, kind, id).value.name
      && id in s.minted && data == s.minted[id].content
    case RFailed => true
  }

  ghost predicate HoldsEvent(s: Shared, e: nat, evt: Event) {
    e in s.catalog && evt.store == s.catalog[e].store
  }

  /** The picture a thumbnail job holds comes from the file its message names. */
  ghost predicate JobSource(s: Shared, m: Photo, evt: Event, name: string) {
    PhotoKept(s, m) && HoldsEvent(s, m.event, evt) && name == s.files[m.file].name
  }

  ghost predicate JobKept(c: Config, s: Shared, job: Job) {
    match job
    case UCheck(up) => true
    case UStore(up, mt, evt) => mt == MediaOf(up.contentType) && !mt.UNSPECIFIED? && HoldsEvent(s, up.event, evt)
    case UAdd(up, mt, evt, id) =>
      && mt == MediaOf(up.contentType) && !mt.UNSPECIFIED?
      && FileKept(s, id, FileRow(up.event, up.name, mt.VIDEO?)) && s.minted[id].content == up.content
    case UFill(up, mt, id) => mt == MediaOf(up.contentType) && AddedKept(s, up, mt, id)
    case UPublish(up, mt, id) => mt == MediaOf(up.contentType) && AddedKept(s, up, mt, id)
    case Get(kind, id, r) => ReadKept(s, kind, id, r)
    case TEvent(m) => PhotoKept(s, m)
    case TFile(m, evt) => PhotoKept(s, m) && HoldsEvent(s, m.event, evt)
    case TRead(m, evt, name, r) => JobSource(s, m, evt, name) && ReadKept(s, Picture, m.file, r)
    case TStore(m, evt, name, data, answer) =>
      && PhotoKept(s, m) && HoldsEvent(s, m.event, evt)
      && name == ThumbName(s.files[m.file].name) && DataKept(c, s, m, data, answer)
    case TFill(m, name, id, data) =>
      ThumbMade(c, s, m, name, id) && data == s.minted[id].content
    case TAdd(m, name, id) => ThumbMade(c, s, m, name, id)
    case TPublish(m, id) =>
      id in s.thumbs && s.thumbs[id].file == m.file && s.thumbs[id].event == m.event
  }

  ghost predicate AddedKept(s: Shared, up: Upload, mt: MediaType, id: string) {
    && !mt.UNSPECIFIED? && id in s.files && s.files[id] == FileRow(up.event, up.name, mt.VIDEO?)
    && FileKept(s, id, s.files[id]) && s.minted[id].content == up.content
  }

  /** The state changes that only touch the growing records and the cache. */
  ghost predicate RecordsKept(c: Config, s: Shared) {
    EventsKept(s) && BlobsKept(s) && FilesKept(s) && ThumbsKept(c, s) && MessagesKept(s) && CacheKept(s)
  }

  ghost predicate Inv(c: Config, s: State) {
    && RecordsKept(c, s.shared)
    && (forall t :: t in s.threads ==> JobKept(c, s.shared, s.threads[t]))
    && (forall i :: 0 <= i < |s.log| ==> OutcomeKept(c, s.shared, s.log[i]))
  }

  /** `m` agrees with `n` wherever `m` is defined. */
  ghost predicate Within<K(!new), V(!new)>(m: map<K, V>, n: map<K, V>) {
    forall k :: k in m ==> k in n && n[k] == m[k]
  }

  /** The records that only ever grow. */
  ghost predicate Grows(s: Shared, s': Shared) {
    && Within(s.catalog, s'.catalog) && Within(s.minted, s'.minted) && Within(s.files, s'.files)
    && Within(s.thumbs, s'.thumbs) && Within(s.blobs, s'.blobs)
  }

  lemma JobStays(c: Config, s: Shared, s': Shared, job: Job)
    requires Grows(s, s') && JobKept(c, s, job)
    ensures JobKept(c, s', job)
  {
  }

  lemma OutcomeStays(c: Config, s: Shared, s': Shared, o: Outcome)
    requires Grows(s, s') && OutcomeKept(c, s, o)
    ensures OutcomeKept(c, s', o)
  {
  }

  /** A change of the cache alone, to one that is still right. */
  lemma CacheOnly(c: Config, s: Shared, cache: map<string, Bytes>)
    requires RecordsKept(c, s) && CacheKept(s.(cache := cache))
    ensures RecordsKept(c, s.(cache := cache)) && Grows(s, s.(cache := cache))
  {
  }

  /** Putting the right bytes under a key keeps the cache right, because keys are injective. */
  lemma FillKeeps(c: Config, s: Shared, event: nat, id: string, data: Bytes, call: Call)
    requires RecordsKept(c, s) && id in s.minted && s.minted[id].event == event && data == s.minted[id].content
    ensures RecordsKept(c, Fill(s, event, id, data, call)) && Grows(s, Fill(s, event, id, data, call))
  {
    if call.Through? {
      var cache := s.cache[Key(event, id) := data];
      forall e: nat, i | Key(e, i) == Key(event, id)
        ensures e == event && i == id
      {
        KeyInjective(e, i, event, id);
      }
      assert CacheKept(s.(cache := cache));
      CacheOnly(c, s, cache);
    }
  }

  lemma FoundIsMinted(c: Config, s: Shared, kind: Kind, id: string)
    requires RecordsKept(c, s) && Find(s, kind, id).Some?
    ensures var row := Find(s, kind, id).value;
      id in s.minted && s.minted[id].event == row.event && s.minted[id].name == row.name
      && row.event in s.catalog && s.minted[id].store == s.catalog[row.event].store
  {
  }

  lemma StoreKeeps(c: Config, s: Shared, id: string, o: Origin)
    requires RecordsKept(c, s) && id !in s.minted && o.event in s.catalog && o.store == s.catalog[o.event].store
    ensures RecordsKept(c, Store(s, id, o)) && Grows(s, Store(s, id, o))
  {
    var s' := Store(s, id, o);
    assert Grows(s, s');
    forall t | t in s'.thumbs ensures s'.thumbs[t].file in s.files { }
  }

  lemma AddFileKeeps(c: Config, s: Shared, id: string, f: FileRow)
    requires RecordsKept(c, s) && id !in s.files && FileKept(s, id, f)
    ensures var s' := s.(files := s.files[id := f]); RecordsKept(c, s') && Grows(s, s')
  {
  }

  lemma AddThumbKeeps(c: Config, s: Shared, m: Photo, name: string, id: string)
    requires RecordsKept(c, s) && id !in s.thumbs && ThumbMade(c, s, m, name, id)
    ensures var s' := s.(thumbs := s.thumbs[id := ThumbRow(m.event, name, m.file)]);
      RecordsKept(c, s') && Grows(s, s')
  {
  }

  lemma PublishKeeps(c: Config, s: Shared, m: Photo)
    requires RecordsKept(c, s) && PhotoKept(s, m)
    ensures var s' := s.(photos := s.photos + {m}); RecordsKept(c, s') && Grows(s, s')
  {
  }

  lemma AnnounceKeeps(c: Config, s: Shared, id: string)
    requires RecordsKept(c, s) && id in s.thumbs
    ensures var s' := s.(announced := s.announced + {id}); RecordsKept(c, s') && Grows(s, s')
  {
    var s' := s.(announced := s.announced + {id});
    forall t | t in s'.thumbs
      ensures var r := s'.thumbs[t];
        r.file in s'.files && ThumbMade(c, s', Photo(r.event, r.file, TypeOf(s'.files[r.file])), r.name, t)
    {
    }
  }

  /** A read moves on holding the right row and the right bytes. */
  lemma ReadMoves(c: Config, s: Shared, kind: Kind, id: string, r: Read, call: Call)
    requires EventsKept(s) && BlobsKept(s) && CacheKept(s)
    requires Find(s, kind, id).Some? ==>
      var row := Find(s, kind, id).value;
      id in s.minted && s.minted[id].event == row.event && s.minted[id].name == row.name
    requires ReadKept(s, kind, id, r) && !r.RGot? && !r.RFailed?
    ensures ReadKept(s, kind, id, ReadNext(c, s, kind, id, r, call))
  {
  }

  lemma ReadKeeps(c: Config, s: Shared, kind: Kind, id: string, r: Read, call: Call)
    requires RecordsKept(c, s) && ReadKept(s, kind, id, r) && !r.RGot? && !r.RFailed?
    ensures var s' := ReadEffect(s, id, r, call);
      ReadKept(s', kind, id, ReadNext(c, s, kind, id, r, call)) && RecordsKept(c, s') && Grows(s, s')
  {
    if Find(s, kind, id).Some? {
      FoundIsMinted(c, s, kind, id);
    }
    ReadMoves(c, s, kind, id, r, call);
    if r.RFill? {
      FillKeeps(c, s, r.row.event, id, r.data, call);
    }
  }

  /** What a move must leave behind. */
  ghost predicate MoveKept(c: Config, s: Shared, move: Move) {
    match move
    case Stuck => true
    case Next(after, job) => RecordsKept(c, after) && Grows(s, after) && JobKept(c, after, job)
    case Last(after, outcome) => RecordsKept(c, after) && Grows(s, after) && OutcomeKept(c, after, outcome)
  }

  lemma CheckUploadKeeps(c: Config, s: Shared, up: Upload, call: Call)
    requires RecordsKept(c, s) && JobKept(c, s, UCheck(up))
    ensures MoveKept(c, s, JobStep(c, s, UCheck(up), call))
  {
  }

  lemma StoreUploadKeeps(c: Config, s: Shared, up: Upload, mt: MediaType, evt: Event, call: Call)
    requires RecordsKept(c, s) && JobKept(c, s, UStore(up, mt, evt))
    ensures MoveKept(c, s, JobStep(c, s, UStore(up, mt, evt), call))
  {
    if call.Named? && call.id !in s.minted {
      StoreKeeps(c, s, call.id, Origin(up.event, evt.store, up.name, up.content, None));
    }
  }

  lemma AddUploadKeeps(c: Config, s: Shared, up: Upload, mt: MediaType, evt: Event, id: string, call: Call)
    requires RecordsKept(c, s) && JobKept(c, s, UAdd(up, mt, evt, id))
    ensures MoveKept(c, s, JobStep(c, s, UAdd(up, mt, evt, id), call))
  {
    if id !in s.files {
      AddFileKeeps(c, s, id, FileRow(up.event, up.name, mt.VIDEO?));
    }
  }

  lemma FillUploadKeeps(c: Config, s: Shared, up: Upload, mt: MediaType, id: string, call: Call)
    requires RecordsKept(c, s) && JobKept(c, s, UFill(up, mt, id))
    ensures MoveKept(c, s, JobStep(c, s, UFill(up, mt, id), call))
  {
    FillKeeps(c, s, up.event, id, up.content, call);
  }

  lemma PublishUploadKeeps(c: Config, s: Shared, up: Upload, mt: MediaType, id: string, call: Call)
    requires RecordsKept(c, s) && JobKept(c, s, UPublish(up, mt, id))
    ensures MoveKept(c, s, JobStep(c, s, UPublish(up, mt, id), call))
  {
    PublishKeeps(c, s, Photo(up.event, id, mt));
  }

  lemma FindThumbEventKeeps(c: Config, s: Shared, m: Photo, call: Call)
    requires RecordsKept(c, s) && JobKept(c, s, TEvent(m))
    ensures MoveKept(c, s, JobStep(c, s, TEvent(m), call))
  {
  }

  lemma FindThumbFileKeeps(c: Config, s: Shared, m: Photo, evt: Event, call: Call)
    requires RecordsKept(c, s) && JobKept(c, s, TFile(m, evt))
    ensures MoveKept(c, s, JobStep(c, s, TFile(m, evt), call))
  {
  }

  lemma SourceStays(s: Shared, s': Shared, m: Photo, evt: Event, name: string)
    requires Grows(s, s') && JobSource(s, m, evt, name)
    ensures JobSource(s', m, evt, name)
  {
  }

  lemma PictureReadKeeps(c: Config, s: Shared, m: Photo, evt: Event, name: string, r: Read, call: Call)
    requires RecordsKept(c, s) && JobSource(s, m, evt, name) && ReadKept(s, Picture, m.file, r)
    requires !r.RGot? && !r.RFailed?
    ensures MoveKept(c, s, MakeThumb(c, s, m, evt, name, r, call))
  {
    ReadKeeps(c, s, Picture, m.file, r, call);
    SourceStays(s, ReadEffect(s, m.file, r, call), m, evt, name);
  }

  lemma MadeKept(c: Config, s: Shared, m: Photo, r: Read, call: Call)
    requires FilesKept(s) && PhotoKept(s, m) && ReadKept(s, Picture, m.file, r) && (r.RGot? || r.RFailed?)
    ensures var made := Made(c, m.mt, r, call); made.Some? ==> DataKept(c, s, m, made.value.0, made.value.1)
  {
    assert FileKept(s, m.file, s.files[m.file]);
  }

  lemma AnswerKeeps(c: Config, s: Shared, m: Photo, evt: Event, name: string, r: Read, call: Call)
    requires RecordsKept(c, s) && JobSource(s, m, evt, name) && ReadKept(s, Picture, m.file, r)
    requires r.RGot? || r.RFailed?
    ensures MoveKept(c, s, MakeThumb(c, s, m, evt, name, r, call))
  {
    MadeKept(c, s, m, r, call);
  }

  lemma MakeThumbKeeps(c: Config, s: Shared, m: Photo, evt: Event, name: string, r: Read, call: Call)
    requires RecordsKept(c, s) && JobKept(c, s, TRead(m, evt, name, r))
    ensures MoveKept(c, s, MakeThumb(c, s, m, evt, name, r, call))
  {
    if !r.RGot? && !r.RFailed? {
      PictureReadKeeps(c, s, m, evt, name, r, call);
    } else {
      AnswerKeeps(c, s, m, evt, name, r, call);
    }
  }

  lemma StoreThumbMakes(c: Config, s: Shared, m: Photo, evt: Event, name: string, data: Bytes, answer: Answer,
                        id: string)
    requires RecordsKept(c, s) && JobKept(c, s, TStore(m, evt, name, data, answer)) && id !in s.minted
    ensures var s' := Store(s, id, Origin(m.event, evt.store, name, data, Some(Source(m.file, answer))));
      && RecordsKept(c, s') && Grows(s, s')
      && JobKept(c, s', TFill(m, name, id, data)) && JobKept(c, s', TAdd(m, name, id))
  {
    StoreKeeps(c, s, id, Origin(m.event, evt.store, name, data, Some(Source(m.file, answer))));
  }

  lemma StoreThumbKeeps(c: Config, s: Shared, m: Photo, evt: Event, name: string, data: Bytes, answer: Answer,
                        call: Call)
    requires RecordsKept(c, s) && JobKept(c, s, TStore(m, evt, name, data, answer))
    ensures MoveKept(c, s, StoreThumb(c, s, m, evt, name, data, answer, call))
  {
    if call.Named? && call.id !in s.minted {
      StoreThumbMakes(c, s, m, evt, name, data, answer, call.id);
    }
  }

  lemma FillThumbKeeps(c: Config, s: Shared, m: Photo, name: string, id: string, data: Bytes, call: Call)
    requires RecordsKept(c, s) && JobKept(c, s, TFill(m, name, id, data))
    ensures MoveKept(c, s, JobStep(c, s, TFill(m, name, id, data), call))
  {
    FillKeeps(c, s, m.event, id, data, call);
  }

  lemma AddThumbRowKeeps(c: Config, s: Shared, m: Photo, name: string, id: string, call: Call)
    requires RecordsKept(c, s) && ThumbMade(c, s, m, name, id)
    ensures MoveKept(c, s, AddThumb(s, m, name, id, call))
  {
    if id !in s.thumbs {
      AddThumbKeeps(c, s, m, name, id);
    }
  }

  lemma PublishThumbKeeps(c: Config, s: Shared, m: Photo, id: string, call: Call)
    requires RecordsKept(c, s) && JobKept(c, s, TPublish(m, id))
    ensures MoveKept(c, s, JobStep(c, s, TPublish(m, id), call))
  {
    AnnounceKeeps(c, s, id);
  }

  lemma GetKeeps(c: Config, s: Shared, kind: Kind, id: string, r: Read, call: Call)
    requires RecordsKept(c, s) && ReadKept(s, kind, id, r)
    ensures MoveKept(c, s, GetMedia(c, s, kind, id, r, call))
  {
    if !r.RGot? && !r.RFailed? {
      ReadKeeps(c, s, kind, id, r, call);
    }
  }

  lemma UploadKeeps(c: Config, s: Shared, job: Job, call: Call)
    requires RecordsKept(c, s) && JobKept(c, s, job)
    requires job.UCheck? || job.UStore? || job.UAdd? || job.UFill? || job.UPublish? || job.Get?
    ensures MoveKept(c, s, JobStep(c, s, job, call))
  {
    match job
    case UCheck(up) => CheckUploadKeeps(c, s, up, call);
    case UStore(up, mt, evt) => StoreUploadKeeps(c, s, up, mt, evt, call);
    case UAdd(up, mt, evt, id) => AddUploadKeeps(c, s, up, mt, evt, id, call);
    case UFill(up, mt, id) => FillUploadKeeps(c, s, up, mt, id, call);
    case UPublish(up, mt, id) => PublishUploadKeeps(c, s, up, mt, id, call);
    case Get(kind, id, r) => GetKeeps(c, s, kind, id, r, call);
  }

  lemma RenderingKeeps(c: Config, s: Shared, job: Job, call: Call)
    requires RecordsKept(c, s) && JobKept(c, s, job) && (job.TEvent? || job.TFile? || job.TRead?)
    ensures MoveKept(c, s, JobStep(c, s, job, call))
  {
    match job
    case TEvent(m) => FindThumbEventKeeps(c, s, m, call);
    case TFile(m, evt) => FindThumbFileKeeps(c, s, m, evt, call);
    case TRead(m, evt, name, r) => MakeThumbKeeps(c, s, m, evt, name, r, call);
  }

  lemma StoringKeeps(c: Config, s: Shared, job: Job, call: Call)
    requires RecordsKept(c, s) && JobKept(c, s, job) && (job.TStore? || job.TFill? || job.TAdd? || job.TPublish?)
    ensures MoveKept(c, s, JobStep(c, s, job, call))
  {
    match job
    case TStore(m, evt, name, data, answer) => StoreThumbKeeps(c, s, m, evt, name, data, answer, call);
    case TFill(m, name, id, data) => FillThumbKeeps(c, s, m, name, id, data, call);
    case TAdd(m, name, id) => AddThumbRowKeeps(c, s, m, name, id, call);
    case TPublish(m, id) => PublishThumbKeeps(c, s, m, id, call);
  }

  lemma JobStepKeeps(c: Config, s: Shared, job: Job, call: Call)
    requires RecordsKept(c, s) && JobKept(c, s, job)
    ensures MoveKept(c, s, JobStep(c, s, job, call))
  {
    if job.UCheck? || job.UStore? || job.UAdd? || job.UFill? || job.UPublish? || job.Get? {
      UploadKeeps(c, s, job, call);
    } else if job.TEvent? || job.TFile? || job.TRead? {
      RenderingKeeps(c, s, job, call);
    } else {
      StoringKeeps(c, s, job, call);
    }
  }

  /** Creating, opening, closing or deleting events leaves every record that names them right. */
  lemma EventRowsChange(c: Config, s: Shared, events: map<nat, Event>, catalog: map<nat, Event>)
    requires RecordsKept(c, s) && Within(s.catalog, catalog)
    requires EventsKept(s.(events := events, catalog := catalog))
    ensures var s' := s.(events := events, catalog := catalog); RecordsKept(c, s') && Grows(s, s')
  {
    var s' := s.(events := events, catalog := catalog);
    assert BlobsKept(s') && FilesKept(s') && CacheKept(s');
    forall id | id in s'.thumbs
      ensures var r := s'.thumbs[id];
        ThumbMade(c, s', Photo(r.event, r.file, TypeOf(s'.files[r.file])), r.name, id)
    {
    }
  }

  lemma ChangeKeeps(c: Config, s: Shared, a: Action)
    requires RecordsKept(c, s) && !a.Invoke? && !a.Advance? && Change(s, a).Some?
    ensures RecordsKept(c, Change(s, a).value) && Grows(s, Change(s, a).value)
  {
    var s' := Change(s, a).value;
    if a.Evict? {
      CacheOnly(c, s, s'.cache);
    } else {
      EventRowsChange(c, s, s'.events, s'.catalog);
    }
  }

  /** The other threads and the log stay right while the records grow. */
  lemma RestStays(c: Config, s: State, after: Shared)
    requires Inv(c, s) && Grows(s.shared, after) && RecordsKept(c, after)
    ensures Inv(c, s.(shared := after))
  {
    forall t | t in s.threads ensures JobKept(c, after, s.threads[t]) { JobStays(c, s.shared, after, s.threads[t]); }
    forall i | 0 <= i < |s.log| ensures OutcomeKept(c, after, s.log[i]) { OutcomeStays(c, s.shared, after, s.log[i]); }
  }

  lemma AdvanceKeeps(c: Config, s: State, t: nat, call: Call)
    requires Inv(c, s) && t in s.threads
    ensures MoveKept(c, s.shared, JobStep(c, s.shared, s.threads[t], call))
    ensures !JobStep(c, s.shared, s.threads[t], call).Stuck? ==>
      Inv(c, s.(shared := JobStep(c, s.shared, s.threads[t], call).after))
  {
    assert JobKept(c, s.shared, s.threads[t]);
    JobStepKeeps(c, s.shared, s.threads[t], call);
    var move := JobStep(c, s.shared, s.threads[t], call);
    if !move.Stuck? {
      RestStays(c, s, move.after);
    }
  }

  lemma StepKeeps(c: Config, s: State, a: Action)
    requires Inv(c, s) && Step(c, s, a).Some?
    ensures Inv(c, Step(c, s, a).value) && Grows(s.shared, Step(c, s, a).value.shared)
  {
    match a
    case Invoke(_, _) =>
    case Advance(t, call) =>
      AdvanceKeeps(c, s, t, call);
    case _ =>
      ChangeKeeps(c, s.shared, a);
      RestStays(c, s, Change(s.shared, a).value);
  }

  lemma {:induction false} RunKeeps(c: Config, actions: seq<Action>)
    requires Run(c, actions).Some?
    ensures Inv(c, Run(c, actions).value)
  {
    if actions != [] {
      var n := |actions| - 1;
      RunKeeps(c, actions[..n]);
      StepKeeps(c, Run(c, actions[..n]).value, actions[n]);
    }
  }

  /**
   In every interleaving, a successful read returns the name and the bytes
   stored when the id was minted, whether they came from the cache or from storage.
   */
  lemma ReadsAreFaithful(c: Config, actions: seq<Action>, i: nat)
    requires Run(c, actions).Some? && i < |Run(c, actions).value.log| && Run(c, actions).value.log[i].Served?
    ensures var s := Run(c, actions).value.shared;
      var o := Run(c, actions).value.log[i];
      && Find(s, o.kind, o.id).Some? && o.id in s.minted
      && o.name == s.minted[o.id].name && o.data == s.minted[o.id].content
      && (o.kind.Picture? <==> s.minted[o.id].source == None)
  {
    RunKeeps(c, actions);
    assert OutcomeKept(c, Run(c, actions).value.shared, Run(c, actions).value.log[i]);
  }

  /** The content types that stand for each kind of medium. */
  predicate Stands(contentType: string, mt: MediaType) {
    match mt
    case IMAGE => contentType in {"image/png", "image/jpeg", "image/heif"}
    case VIDEO => contentType in {"video/avi", "video/mp4", "video/mpeg", "video/webm", "video/quicktime"}
    case UNSPECIFIED => false
  }

  lemma StandsFor(contentType: string, mt: MediaType)
    ensures Stands(contentType, mt) <==> mt == MediaOf(contentType) && mt != UNSPECIFIED
  {
  }

  /**
   Every upload reported as done was of one of eight content types. Its bytes and its row are on
   record, as a video for the video types only, and so says every message about it.
   */
  lemma UploadsAreRecorded(c: Config, actions: seq<Action>, i: nat)
    requires Run(c, actions).Some? && i < |Run(c, actions).value.log| && Run(c, actions).value.log[i].Uploaded?
    ensures var s := Run(c, actions).value.shared;
      var o := Run(c, actions).value.log[i];
      var image := o.up.contentType in {"image/png", "image/jpeg", "image/heif"};
      var video := o.up.contentType in {"video/avi", "video/mp4", "video/mpeg", "video/webm", "video/quicktime"};
      && image != video
      && o.id in s.files && s.files[o.id] == FileRow(o.up.event, o.up.name, video)
      && o.id in s.minted && s.minted[o.id].content == o.up.content
      && forall m :: m in s.photos && m.file == o.id ==> m == Photo(o.up.event, o.id, if video then VIDEO else IMAGE)
  {
    RunKeeps(c, actions);
    var s, o := Run(c, actions).value.shared, Run(c, actions).value.log[i];
    assert OutcomeKept(c, s, o);
    StandsFor(o.up.contentType, MediaOf(o.up.contentType));
    forall m | m in s.photos && m.file == o.id ensures m.event == o.up.event && m.mt == TypeOf(s.files[o.id]) {
      assert PhotoKept(s, m);
    }
  }

  /** An upload of any other type never gets beyond its first check, and every way it can go on is to fail there. */
  lemma OtherTypesAreRefused(c: Config, actions: seq<Action>, t: nat, call: Call)
    requires Run(c, actions).Some? && t in Run(c, actions).value.threads
    requires var job := Run(c, actions).value.threads[t];
      && (job.UCheck? || job.UStore? || job.UAdd? || job.UFill? || job.UPublish?)
      && job.up.contentType !in {"image/png", "image/jpeg", "image/heif"}
      && job.up.contentType !in {"video/avi", "video/mp4", "video/mpeg", "video/webm", "video/quicktime"}
    ensures var s, job := Run(c, actions).value.shared, Run(c, actions).value.threads[t];
      job == UCheck(job.up) && JobStep(c, s, job, call) == Last(s, UploadFailed(job.up))
  {
    RunKeeps(c, actions);
    var s, job := Run(c, actions).value.shared, Run(c, actions).value.threads[t];
    assert JobKept(c, s, job);
    StandsFor(job.up.contentType, MediaOf(job.up.contentType));
  }

  /**
   A served thumbnail was made from its own row's file. For an image it is the rendering of the
   bytes that were uploaded. For a video it is, exactly if the answer it was made from had no
   error status or had, by chance, the rendering as its body; otherwise it is that body.
   */
  lemma ThumbnailsShowTheirPicture(c: Config, actions: seq<Action>, i: nat)
    requires Run(c, actions).Some? && i < |Run(c, actions).value.log| && Run(c, actions).value.log[i].Served?
    requires Run(c, actions).value.log[i].kind.Thumbnail?
    ensures var s := Run(c, actions).value.shared;
      var o := Run(c, actions).value.log[i];
      && o.id in s.thumbs && o.id in s.minted && s.minted[o.id].source.Some?
      && var file, answer := s.thumbs[o.id].file, s.minted[o.id].source.value.answer;
         && s.minted[o.id].source.value.file == file && file in s.files && file in s.minted
         && o.name == ThumbName(s.files[file].name)
         && var rendering := c.render(TypeOf(s.files[file]), s.minted[file].content);
            && (!s.files[file].video ==> answer == Rendering)
            && (o.data == rendering <==> answer == Rendering || answer.body == rendering)
            && (answer != Rendering ==> o.data == answer.body)
  {
    RunKeeps(c, actions);
    assert OutcomeKept(c, Run(c, actions).value.shared, Run(c, actions).value.log[i]);
  }

  /** Every row has its blob, every thumbnail belongs to its file's event, and every message names committed rows. */
  lemma RecordsAgree(c: Config, actions: seq<Action>)
    requires Run(c, actions).Some?
    ensures var s := Run(c, actions).value.shared;
      && (forall id :: id in s.files ==>
            && s.files[id].event in s.catalog && (s.catalog[s.files[id].event].store, id) in s.blobs)
      && (forall id :: id in s.thumbs ==>
            && s.thumbs[id].event in s.catalog && (s.catalog[s.thumbs[id].event].store, id) in s.blobs
            && s.thumbs[id].file in s.files && s.files[s.thumbs[id].file].event == s.thumbs[id].event)
      && (forall m :: m in s.photos ==>
            && m.file in s.files && s.files[m.file].event == m.event
            && m.mt == if s.files[m.file].video then VIDEO else IMAGE)
      && (forall id :: id in s.announced ==> id in s.thumbs)
  {
    RunKeeps(c, actions);
  }

  /** What the actions from outside do, as any call that comes after them can see. */
  lemma ChangesShow(s: Shared, e: nat, key: string, event: Event, live: bool)
    ensures Change(s, CreateEvent(e, event)).Some? <==> e !in s.catalog
    ensures e !in s.catalog ==> EventIs(s, Change(s, CreateEvent(e, event)).value, e, Some(event))
    ensures Change(s, SetLive(e, live)).Some? <==> e in s.events
    ensures e in s.events ==> EventIs(s, Change(s, SetLive(e, live)).value, e, Some(s.events[e].(live := live)))
    ensures Change(s, DeleteEvent(e)).Some? && EventIs(s, Change(s, DeleteEvent(e)).value, e, None)
    ensures Change(s, Evict(key)).Some?
    ensures var t := Change(s, Evict(key)).value;
      && key !in t.cache && (forall k :: k in s.cache && k != key ==> k in t.cache && t.cache[k] == s.cache[k])
      && t == s.(cache := t.cache)
  {
  }

  /** `t` is `s` with event `e` as given, gone or there, every other event and all other records alike. */
  ghost predicate EventIs(s: Shared, t: Shared, e: nat, event: Option<Event>) {
    && (match event
        case Some(row) => e in t.events && t.events[e] == row
        case None => e !in t.events)
    && (forall x :: x != e ==> (x in t.events <==> x in s.events) && (x in s.events ==> t.events[x] == s.events[x]))
    && t.blobs == s.blobs && t.minted == s.minted && t.files == s.files && t.thumbs == s.thumbs
    && t.photos == s.photos && t.announced == s.announced && t.cache == s.cache
  }

  /** A job ends without a thumbnail source exactly when its message is of no known type and its file is there. */
  lemma PanicsWithoutSource(c: Config, s: Shared, m: Photo, evt: Event, call: Call)
    ensures JobStep(c, s, TFile(m, evt), call) == Last(s, Panicked(m)) <==>
      m.mt != IMAGE && m.mt != VIDEO && m.file in s.files && call != Fault
  {
  }

  /** No thumbnail job meets a message without a thumbnail source, and every acknowledged one left its row. */
  lemma ThumbJobsHaveASource(c: Config, actions: seq<Action>, i: nat)
    requires Run(c, actions).Some? && i < |Run(c, actions).value.log|
    ensures var s, o := Run(c, actions).value.shared, Run(c, actions).value.log[i];
      && !o.Panicked?
      && (o.Acked? ==> o.id in s.thumbs && s.thumbs[o.id].file == o.photo.file)
  {
    RunKeeps(c, actions);
    assert OutcomeKept(c, Run(c, actions).value.shared, Run(c, actions).value.log[i]);
  }
}
