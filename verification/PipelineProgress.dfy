/**
 What the pipeline achieves when its calls go through: an accepted upload is
 recorded and announced, its thumbnail is made, and both are served, from any
 state the system can reach and whatever the cache holds.
 */
module PipelineProgress {
  import opened Wrappers
  import opened MediaNames
  import opened Pipeline
  import opened PipelineSafety
  import opened PipelineRefinement

  /** Runs `calls` through one read, with what they leave in the cache. */
  function ReadPath(c: Config, s: Shared, kind: Kind, id: string, r: Read, calls: seq<Call>): Option<(Shared, Read)>
    decreases |calls|
  {
    if calls == [] then Some((s, r))
    else if r.RGot? || r.RFailed? then None
    else ReadPath(c, ReadEffect(s, id, r, calls[0]), kind, id, ReadNext(c, s, kind, id, r, calls[0]), calls[1..])
  }

  /** How many calls a read may still need. */
  function Rank(r: Read): nat {
    match r
    case RRow => 5
    case RCache(_) => 4
    case REvent(_, _) => 3
    case RBlob(_, _, _) => 2
    case RFill(_, _) => 1
    case _ => 0
  }

  lemma ReadAdvances(c: Config, s: Shared, kind: Kind, id: string, r: Read)
    requires RecordsKept(c, s) && ReadKept(s, kind, id, r) && !r.RGot? && !r.RFailed?
    requires Find(s, kind, id).Some? && Find(s, kind, id).value.event in s.events
    ensures var s', r' := ReadEffect(s, id, r, Through), ReadNext(c, s, kind, id, r, Through);
      && Bare(s') == Bare(s) && RecordsKept(c, s') && ReadKept(s', kind, id, r')
      && !r'.RFailed? && Rank(r') < Rank(r)
  {
    FoundIsMinted(c, s, kind, id);
    ReadKeeps(c, s, kind, id, r, Through);
  }

  lemma BareFinds(s: Shared, s': Shared, kind: Kind, id: string)
    requires Bare(s') == Bare(s)
    ensures Find(s', kind, id) == Find(s, kind, id) && s'.events == s.events && s'.minted == s.minted
  {
    assert Bare(s).files == s.files && Bare(s).thumbs == s.thumbs && Bare(s).events == s.events;
    assert Bare(s).minted == s.minted && Bare(s').minted == s'.minted;
    assert Bare(s').files == s'.files && Bare(s').thumbs == s'.thumbs && Bare(s').events == s'.events;
  }

  /** A read whose calls go through ends with the recorded name and bytes, hit or miss. */
  lemma {:induction false} ReadArrives(c: Config, s: Shared, kind: Kind, id: string, r: Read)
    returns (calls: seq<Call>, s': Shared)
    requires RecordsKept(c, s) && ReadKept(s, kind, id, r) && !r.RFailed?
    requires Find(s, kind, id).Some? && Find(s, kind, id).value.event in s.events && id in s.minted
    ensures Bare(s') == Bare(s) && RecordsKept(c, s')
    ensures ReadPath(c, s, kind, id, r, calls) == Some((s', RGot(s.minted[id].name, s.minted[id].content)))
    decreases Rank(r)
  {
    if r.RGot? {
      FoundIsMinted(c, s, kind, id);
      calls, s' := [], s;
    } else {
      ReadAdvances(c, s, kind, id, r);
      var s1, r1 := ReadEffect(s, id, r, Through), ReadNext(c, s, kind, id, r, Through);
      BareFinds(s, s1, kind, id);
      var more;
      more, s' := ReadArrives(c, s1, kind, id, r1);
      calls := [Through] + more;
      assert calls[1..] == more;
    }
  }

  lemma {:induction false} GetPath(c: Config, s: Shared, kind: Kind, id: string, r: Read, calls: seq<Call>)
    requires ReadPath(c, s, kind, id, r, calls).Some?
    ensures var end := ReadPath(c, s, kind, id, r, calls).value;
      JobRun(c, s, Get(kind, id, r), calls) == Some((end.0, Get(kind, id, end.1)))
    decreases |calls|
  {
    if calls != [] {
      GetPath(c, ReadEffect(s, id, r, calls[0]), kind, id, ReadNext(c, s, kind, id, r, calls[0]), calls[1..]);
    }
  }

  lemma {:induction false} PicturePath(c: Config, s: Shared, m: Photo, evt: Event, name: string, r: Read,
                                       calls: seq<Call>)
    requires ReadPath(c, s, Picture, m.file, r, calls).Some?
    ensures var end := ReadPath(c, s, Picture, m.file, r, calls).value;
      JobRun(c, s, TRead(m, evt, name, r), calls) == Some((end.0, TRead(m, evt, name, end.1)))
    decreases |calls|
  {
    if calls != [] {
      PicturePath(c, ReadEffect(s, m.file, r, calls[0]), m, evt, name,
                  ReadNext(c, s, Picture, m.file, r, calls[0]), calls[1..]);
    }
  }

  /** The calls of one thread, one part after the other. */
  lemma {:induction false} JobRunsJoin(c: Config, s: Shared, job: Job, first: seq<Call>, second: seq<Call>)
    requires JobRun(c, s, job, first).Some?
    ensures var mid := JobRun(c, s, job, first).value;
      JobRun(c, s, job, first + second) == JobRun(c, mid.0, mid.1, second)
    decreases |first|
  {
    if first == [] {
      assert first + second == second;
    } else {
      var call, rest := first[0], first[1..];
      var move := JobStep(c, s, job, call);
      JobRunsJoin(c, move.after, move.job, rest, second);
      JobCall(c, s, job, call, rest + second);
      assert [call] + (rest + second) == first + second;
    }
  }

  lemma JobCall(c: Config, s: Shared, job: Job, call: Call, rest: seq<Call>)
    requires JobStep(c, s, job, call).Next?
    ensures var move := JobStep(c, s, job, call);
      JobRun(c, s, job, [call] + rest) == JobRun(c, move.after, move.job, rest)
  {
    assert ([call] + rest)[1..] == rest;
  }

  /** A whole thread: started at `job`, it makes `calls` and ends with `last`. */
  function Thread(t: nat, job: Job, calls: seq<Call>, last: Call): seq<Action> {
    [Invoke(t, job)] + Advances(t, calls) + [Advance(t, last)]
  }

  lemma ThreadRuns(c: Config, s: State, t: nat, job: Job, calls: seq<Call>, last: Call)
    requires t !in s.threads && Startable(s.shared, job) && JobRun(c, s.shared, job, calls).Some?
    requires var end := JobRun(c, s.shared, job, calls).value; JobStep(c, end.0, end.1, last).Last?
    ensures var end := JobRun(c, s.shared, job, calls).value;
      var move := JobStep(c, end.0, end.1, last);
      RunFrom(c, s, Thread(t, job, calls, last)) == Some(State(move.after, s.threads, s.log + [move.outcome]))
  {
    var end := JobRun(c, s.shared, job, calls).value;
    var s1 := s.(threads := s.threads[t := job]);
    var s2 := State(end.0, s1.threads[t := end.1], s.log);
    OneAction(c, s, Invoke(t, job));
    LiftRun(c, s1, t, calls);
    RunsJoin(c, s, [Invoke(t, job)], Advances(t, calls));
    OneAction(c, s2, Advance(t, last));
    RunsJoin(c, s, [Invoke(t, job)] + Advances(t, calls), [Advance(t, last)]);
    assert s2.threads - {t} == s.threads;
  }

  /** The state that a thread, run by itself after `before`, leads to. */
  function After(c: Config, before: seq<Action>, t: nat, job: Job, calls: seq<Call>, last: Call): Option<State> {
    Run(c, before + Thread(t, job, calls, last))
  }

  lemma AfterIs(c: Config, before: seq<Action>, t: nat, job: Job, calls: seq<Call>, last: Call)
    requires Run(c, before).Some?
    ensures After(c, before, t, job, calls, last) == RunFrom(c, Run(c, before).value, Thread(t, job, calls, last))
  {
    RunsJoin(c, EMPTY, before, Thread(t, job, calls, last));
  }

  lemma GetRuns(c: Config, s: State, t: nat, kind: Kind, id: string, calls: seq<Call>)
    requires t !in s.threads && ReadPath(c, s.shared, kind, id, RRow, calls).Some?
    requires ReadPath(c, s.shared, kind, id, RRow, calls).value.1.RGot?
    ensures var (end, r) := ReadPath(c, s.shared, kind, id, RRow, calls).value;
      RunFrom(c, s, Thread(t, Get(kind, id, RRow), calls, Through))
      == Some(State(end, s.threads, s.log + [Served(kind, id, r.name, r.data)]))
  {
    GetPath(c, s.shared, kind, id, RRow, calls);
    ThreadRuns(c, s, t, Get(kind, id, RRow), calls, Through);
  }

  /** Whatever has a row and an event is served, as it was recorded, without changing anything but the cache. */
  lemma MediaIsServed(c: Config, before: seq<Action>, t: nat, kind: Kind, id: string) returns (calls: seq<Call>)
    requires Run(c, before).Some? && t !in Run(c, before).value.threads
    requires var s := Run(c, before).value.shared; Find(s, kind, id).Some? && Find(s, kind, id).value.event in s.events
    ensures var s, after := Run(c, before).value, After(c, before, t, Get(kind, id, RRow), calls, Through);
      && id in s.shared.minted && after.Some? && after.value.threads == s.threads
      && after.value.log == s.log + [Served(kind, id, s.shared.minted[id].name, s.shared.minted[id].content)]
      && after.value.shared.(cache := map[]) == s.shared.(cache := map[])
  {
    var s := Run(c, before).value;
    RunKeeps(c, before);
    FoundIsMinted(c, s.shared, kind, id);
    var end;
    calls, end := ReadArrives(c, s.shared, kind, id, RRow);
    GetRuns(c, s, t, kind, id, calls);
    AfterIs(c, before, t, Get(kind, id, RRow), calls, Through);
  }

  function UploadCalls(c: Config, evt: Event, id: string): seq<Call> {
    [Through, Named(id), Through] + if c.caching && evt.cache then [Through] else []
  }

  /** The records an upload leaves behind. */
  function WithUpload(c: Config, s: Shared, up: Upload, mt: MediaType, evt: Event, id: string): Shared {
    s.(blobs := s.blobs[(evt.store, id) := up.content],
       minted := s.minted[id := Origin(up.event, evt.store, up.name, up.content, None)],
       files := s.files[id := FileRow(up.event, up.name, mt == VIDEO)],
       photos := s.photos + {Photo(up.event, id, mt)},
       cache := if c.caching && evt.cache then s.cache[Key(up.event, id) := up.content] else s.cache)
  }

  lemma UploadPath(c: Config, s: Shared, up: Upload, mt: MediaType, id: string)
    requires Stands(up.contentType, mt) && up.event in s.events && s.events[up.event].live
    requires id !in s.minted && id !in s.files
    ensures var evt := s.events[up.event];
      var end := JobRun(c, s, UCheck(up), UploadCalls(c, evt, id));
      && end.Some? && end.value.1 == UPublish(up, mt, id)
      && JobStep(c, end.value.0, end.value.1, Through) == Last(WithUpload(c, s, up, mt, evt, id), Uploaded(up, id))
  {
    var evt := s.events[up.event];
    StandsFor(up.contentType, mt);
    var fill: seq<Call> := if c.caching && evt.cache then [Through] else [];
    var s1 := Store(s, id, Origin(up.event, evt.store, up.name, up.content, None));
    var s2 := s1.(files := s1.files[id := FileRow(up.event, up.name, mt == VIDEO)]);
    JobCall(c, s, UCheck(up), Through, [Named(id)] + ([Through] + fill));
    JobCall(c, s, UStore(up, mt, evt), Named(id), [Through] + fill);
    JobCall(c, s1, UAdd(up, mt, evt, id), Through, fill);
    if fill != [] {
      JobCall(c, s2, UFill(up, mt, id), Through, []);
      assert [Through] + [] == fill;
    }
    assert UploadCalls(c, evt, id) == [Through] + ([Named(id)] + ([Through] + fill));
  }

  /** An upload of a known type to an open event is recorded, cached and announced, and nothing else changes. */
  lemma UploadArrives(c: Config, before: seq<Action>, t: nat, up: Upload, mt: MediaType, id: string)
    requires Run(c, before).Some? && t !in Run(c, before).value.threads && id !in Run(c, before).value.shared.minted
    requires var s := Run(c, before).value.shared;
      Stands(up.contentType, mt) && up.event in s.events && s.events[up.event].live
    ensures var s := Run(c, before).value;
      var evt := s.shared.events[up.event];
      After(c, before, t, UCheck(up), UploadCalls(c, evt, id), Through)
      == Some(State(WithUpload(c, s.shared, up, mt, evt, id), s.threads, s.log + [Uploaded(up, id)]))
  {
    var s := Run(c, before).value;
    RunKeeps(c, before);
    UploadPath(c, s.shared, up, mt, id);
    ThreadRuns(c, s, t, UCheck(up), UploadCalls(c, s.shared.events[up.event], id), Through);
    AfterIs(c, before, t, UCheck(up), UploadCalls(c, s.shared.events[up.event], id), Through);
  }

  function StoringCalls(c: Config, evt: Event, id: string): seq<Call> {
    [Named(id)] + if c.caching && evt.cache then [Through, Through] else [Through]
  }

  /** The records a thumbnail job leaves behind, the cache aside. */
  function WithThumb(s: Shared, m: Photo, store: nat, name: string, data: Bytes, answer: Answer, id: string): Shared {
    s.(blobs := s.blobs[(store, id) := data],
       minted := s.minted[id := Origin(m.event, store, name, data, Some(Source(m.file, answer)))],
       thumbs := s.thumbs[id := ThumbRow(m.event, name, m.file)],
       announced := s.announced + {id},
       cache := map[])
  }

  /** From the generator's answer on. */
  lemma StoringPath(c: Config, s: Shared, m: Photo, evt: Event, name: string, data: Bytes, answer: Answer, id: string)
    requires id !in s.minted && id !in s.thumbs
    ensures var end := JobRun(c, s, TStore(m, evt, name, data, answer), StoringCalls(c, evt, id));
      && end.Some? && end.value.1 == TPublish(m, id)
      && var move := PublishThumb(end.value.0, m, id, Through);
         && move == Last(move.after, Acked(m, id))
         && Bare(move.after) == WithThumb(s, m, evt.store, name, data, answer, id)
  {
    var s1 := Store(s, id, Origin(m.event, evt.store, name, data, Some(Source(m.file, answer))));
    if c.caching && evt.cache {
      JobCall(c, s, TStore(m, evt, name, data, answer), Named(id), [Through, Through]);
      JobCall(c, s1, TFill(m, name, id, data), Through, [Through]);
      assert [Through] + [Through] == [Through, Through];
      var s2 := Fill(s1, m.event, id, data, Through);
      JobCall(c, s2, TAdd(m, name, id), Through, []);
      assert [Through] + [] == [Through];
    } else {
      JobCall(c, s, TStore(m, evt, name, data, answer), Named(id), [Through]);
      JobCall(c, s1, TAdd(m, name, id), Through, []);
      assert [Through] + [] == [Through];
    }
  }

  lemma PictureArrives(c: Config, s: Shared, m: Photo, evt: Event, name: string) returns (fetch: seq<Call>, s': Shared)
    requires RecordsKept(c, s) && PhotoKept(s, m) && m.event in s.events
    ensures Bare(s') == Bare(s) && m.file in s.minted
    ensures JobRun(c, s, TRead(m, evt, name, RRow), fetch + [Through])
         == Some((s', TStore(m, evt, ThumbName(name), c.render(m.mt, s.minted[m.file].content), Rendering)))
  {
    FoundIsMinted(c, s, Picture, m.file);
    fetch, s' := ReadArrives(c, s, Picture, m.file, RRow);
    PicturePath(c, s, m, evt, name, RRow, fetch);
    var got := TRead(m, evt, name, RGot(s.minted[m.file].name, s.minted[m.file].content));
    JobCall(c, s', got, Through, []);
    assert [Through] + [] == [Through];
    JobRunsJoin(c, s, TRead(m, evt, name, RRow), fetch, [Through]);
  }

  lemma OpeningPath(c: Config, s: Shared, m: Photo, rest: seq<Call>)
    requires m.event in s.events && m.file in s.files && m.mt != UNSPECIFIED
    ensures JobRun(c, s, TEvent(m), [Through, Through] + rest)
         == JobRun(c, s, TRead(m, s.events[m.event], s.files[m.file].name, RRow), rest)
  {
    JobCall(c, s, TFile(m, s.events[m.event]), Through, rest);
    JobCall(c, s, TEvent(m), Through, [Through] + rest);
    assert [Through, Through] + rest == [Through] + ([Through] + rest);
  }

  /** Up to the rendered thumbnail. */
  lemma RenderingPath(c: Config, s: Shared, m: Photo) returns (fetch: seq<Call>, s': Shared)
    requires RecordsKept(c, s) && PhotoKept(s, m) && m.event in s.events
    ensures Bare(s') == Bare(s) && m.file in s.minted
    ensures JobRun(c, s, TEvent(m), [Through, Through] + fetch + [Through])
         == Some((s', TStore(m, s.events[m.event], ThumbName(s.files[m.file].name),
                             c.render(m.mt, s.minted[m.file].content), Rendering)))
  {
    fetch, s' := PictureArrives(c, s, m, s.events[m.event], s.files[m.file].name);
    OpeningPath(c, s, m, fetch + [Through]);
    assert [Through, Through] + fetch + [Through] == [Through, Through] + (fetch + [Through]);
  }

  /** What the generator's client passed on is stored and recorded, and its job about to be announced. */
  lemma AnswerPath(c: Config, s: Shared, m: Photo, evt: Event, name: string, first: seq<Call>, s1: Shared,
                   data: Bytes, answer: Answer, id: string)
    requires Bare(s1) == Bare(s) && id !in s.minted && id !in s.thumbs
    requires JobRun(c, s, TEvent(m), first) == Some((s1, TStore(m, evt, name, data, answer)))
    ensures var end := JobRun(c, s, TEvent(m), first + StoringCalls(c, evt, id));
      && end.Some? && end.value.1 == TPublish(m, id)
      && var move := JobStep(c, end.value.0, end.value.1, Through);
         && move == Last(move.after, Acked(m, id))
         && Bare(move.after) == WithThumb(s, m, evt.store, name, data, answer, id)
  {
    assert Bare(s1).thumbs == s1.thumbs && Bare(s1).minted == s1.minted;
    StoringPath(c, s1, m, evt, name, data, answer, id);
    JobRunsJoin(c, s, TEvent(m), first, StoringCalls(c, evt, id));
    SameBare(s, s1, m, evt.store, name, data, answer, id);
  }

  /** What the generator's client passed on, stored, recorded and announced. */
  lemma AnswerArrives(c: Config, before: seq<Action>, t: nat, m: Photo, first: seq<Call>, s1: Shared,
                      data: Bytes, answer: Answer, id: string) returns (calls: seq<Call>)
    requires Run(c, before).Some? && t !in Run(c, before).value.threads && id !in Run(c, before).value.shared.minted
    requires var s := Run(c, before).value.shared;
      && m in s.photos && m.event in s.events && m.event in s.catalog && m.file in s.files && Bare(s1) == Bare(s)
      && JobRun(c, s, TEvent(m), first)
         == Some((s1, TStore(m, s.events[m.event], ThumbName(s.files[m.file].name), data, answer)))
    ensures var s, after := Run(c, before).value, After(c, before, t, TEvent(m), calls, Through);
      && after.Some? && after.value.threads == s.threads && after.value.log == s.log + [Acked(m, id)]
      && after.value.shared.(cache := map[]) ==
           WithThumb(s.shared, m, s.shared.catalog[m.event].store, ThumbName(s.shared.files[m.file].name),
                     data, answer, id)
  {
    var s := Run(c, before).value;
    RunKeeps(c, before);
    var evt, name := s.shared.events[m.event], ThumbName(s.shared.files[m.file].name);
    ThumbsAreMinted(c, s.shared, id);
    AnswerPath(c, s.shared, m, evt, name, first, s1, data, answer, id);
    calls := first + StoringCalls(c, evt, id);
    ThreadRuns(c, s, t, TEvent(m), calls, Through);
    AfterIs(c, before, t, TEvent(m), calls, Through);
  }

  /**
   A published picture whose event is still there gets its thumbnail, rendered
   from the bytes that were uploaded; the job is acknowledged and announced.
   */
  lemma ThumbArrives(c: Config, before: seq<Action>, t: nat, m: Photo, id: string) returns (calls: seq<Call>)
    requires Run(c, before).Some? && t !in Run(c, before).value.threads && id !in Run(c, before).value.shared.minted
    requires var s := Run(c, before).value.shared; m in s.photos && m.event in s.events
    ensures var s, after := Run(c, before).value, After(c, before, t, TEvent(m), calls, Through);
      && m.file in s.shared.files && m.file in s.shared.minted && m.event in s.shared.catalog
      && after.Some? && after.value.threads == s.threads && after.value.log == s.log + [Acked(m, id)]
      && after.value.shared.(cache := map[]) ==
           WithThumb(s.shared, m, s.shared.catalog[m.event].store, ThumbName(s.shared.files[m.file].name),
                     c.render(m.mt, s.shared.minted[m.file].content), Rendering, id)
  {
    var s := Run(c, before).value.shared;
    RunKeeps(c, before);
    var fetch, s1 := RenderingPath(c, s, m);
    var data := c.render(m.mt, s.minted[m.file].content);
    calls := AnswerArrives(c, before, t, m, [Through, Through] + fetch + [Through], s1, data, Rendering, id);
  }

  lemma ThumbsAreMinted(c: Config, s: Shared, id: string)
    requires RecordsKept(c, s) && id !in s.minted
    ensures id !in s.thumbs
  {
  }

  lemma SameBare(s: Shared, s': Shared, m: Photo, store: nat, name: string, data: Bytes, answer: Answer, id: string)
    requires Bare(s') == Bare(s)
    ensures WithThumb(s', m, store, name, data, answer, id) == WithThumb(s, m, store, name, data, answer, id)
  {
    var w := WithThumb(s, m, store, name, data, answer, id);
    assert w == WithThumb(Bare(s), m, store, name, data, answer, id);
    assert WithThumb(s', m, store, name, data, answer, id) == WithThumb(Bare(s'), m, store, name, data, answer, id);
  }

  /**
   From upload to gallery: after an upload, the job for its message and a read of
   the thumbnail serve the rendering of exactly the uploaded bytes under the name
   made from the uploaded name.
   */
  lemma UploadIsShown(c: Config, before: seq<Action>, t: nat, up: Upload, mt: MediaType, file: string, thumb: string)
    returns (all: seq<Action>)
    requires Run(c, before).Some? && t !in Run(c, before).value.threads
    requires var s := Run(c, before).value.shared;
      && Stands(up.contentType, mt) && up.event in s.events && s.events[up.event].live
      && file !in s.minted && thumb !in s.minted && file != thumb
    ensures var s := Run(c, before).value;
      Run(c, all).Some? && before <= all && Run(c, all).value.log ==
        s.log + [Uploaded(up, file)] + [Acked(Photo(up.event, file, mt), thumb)]
        + [Served(Thumbnail, thumb, ThumbName(up.name), c.render(mt, up.content))]
  {
    var s := Run(c, before).value;
    var evt, m := s.shared.events[up.event], Photo(up.event, file, mt);
    UploadArrives(c, before, t, up, mt, file);
    var first := before + Thread(t, UCheck(up), UploadCalls(c, evt, file), Through);
    var jobs := ThumbArrives(c, first, t, m, thumb);
    var second := first + Thread(t, TEvent(m), jobs, Through);
    ThumbOnRecord(c, second, s.shared.events, Run(c, first).value.shared, m, thumb,
                  ThumbName(up.name), c.render(mt, up.content), Rendering);
    var fetch := MediaIsServed(c, second, t, Thumbnail, thumb);
    all := second + Thread(t, Get(Thumbnail, thumb, RRow), fetch, Through);
  }

  lemma ThumbOnRecord(c: Config, all: seq<Action>, events: map<nat, Event>, s: Shared, m: Photo, id: string,
                      name: string, data: Bytes, answer: Answer)
    requires Run(c, all).Some? && m.event in events && s.events == events && m.event in s.catalog
    requires Bare(Run(c, all).value.shared) == WithThumb(s, m, s.catalog[m.event].store, name, data, answer, id)
    ensures var s' := Run(c, all).value.shared;
      && Find(s', Thumbnail, id) == Some(Row(m.event, name)) && m.event in s'.events
      && id in s'.minted && s'.minted[id].name == name && s'.minted[id].content == data
  {
    var s' := Run(c, all).value.shared;
    assert Bare(s').thumbs == s'.thumbs && Bare(s').events == s'.events && Bare(s').minted == s'.minted;
  }
}
