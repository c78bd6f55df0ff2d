/**
 Thumbnails that do not show their picture: the client's call for videos takes an
 answer with an error status for a thumbnail. Where such thumbnails come from in
 any run, and that whatever a generator answers so is stored and served.
 */
module PipelineErrors {
  import opened Wrappers
  import opened MediaNames
  import opened Pipeline
  import opened PipelineSafety
  import opened PipelineRefinement
  import opened PipelineProgress

  predicate Over(r: Read) {
    r.RGot? || r.RFailed?
  }

  /** At step `k` the generator answers a job for video `file` with an error status and `body`. */
  ghost predicate AnsweredAt(c: Config, actions: seq<Action>, k: nat, file: string, body: Bytes) {
    && k < |actions| && actions[k].Advance? && actions[k].call == Answered(body) && Run(c, actions[..k]).Some?
    && var threads := Run(c, actions[..k]).value.threads;
       && actions[k].thread in threads
       && var job := threads[actions[k].thread];
          job.TRead? && Over(job.read) && job.photo.file == file && job.photo.mt == VIDEO
  }

  ghost predicate WasAnswered(c: Config, actions: seq<Action>, file: string, body: Bytes) {
    exists k: nat :: AnsweredAt(c, actions, k, file, body)
  }

  ghost predicate Accounted(c: Config, actions: seq<Action>, file: string, answer: Answer) {
    answer.ErrorBody? ==> WasAnswered(c, actions, file, answer.body)
  }

  /** Every error body on record, or on its way there, was an answer of the run. */
  ghost predicate AllAccounted(c: Config, actions: seq<Action>, s: State) {
    && (forall id :: id in s.shared.minted && s.shared.minted[id].source.Some? ==>
          Accounted(c, actions, s.shared.minted[id].source.value.file, s.shared.minted[id].source.value.answer))
    && forall t :: t in s.threads && s.threads[t].TStore? ==>
         Accounted(c, actions, s.threads[t].photo.file, s.threads[t].answer)
  }

  lemma StaysAccounted(c: Config, actions: seq<Action>, a: Action, file: string, answer: Answer)
    requires Accounted(c, actions, file, answer)
    ensures Accounted(c, actions + [a], file, answer)
  {
    if answer.ErrorBody? {
      var k: nat :| AnsweredAt(c, actions, k, file, answer.body);
      assert (actions + [a])[..k] == actions[..k];
      assert AnsweredAt(c, actions + [a], k, file, answer.body);
    }
  }

  /** What a call mints comes from the position before it, and an answer that is to be stored from the call. */
  ghost predicate Sourced(s: Shared, job: Job, call: Call, move: Move) {
    && (!move.Stuck? ==> forall id :: id in move.after.minted && move.after.minted[id].source.Some? ==>
          || (id in s.minted && s.minted[id] == move.after.minted[id])
          || (job.TStore? && move.after.minted[id].source == Some(Source(job.photo.file, job.answer))))
    && (move.Next? && move.job.TStore? ==>
          && job.TRead? && Over(job.read) && move.job.photo == job.photo
          && (move.job.answer.ErrorBody? ==> call == Answered(move.job.answer.body) && job.photo.mt == VIDEO))
  }

  lemma JobStepSourced(c: Config, s: Shared, job: Job, call: Call)
    ensures Sourced(s, job, call, JobStep(c, s, job, call))
  {
  }

  lemma AdvanceAccounts(c: Config, before: seq<Action>, s: State, t: nat, call: Call, s': State)
    requires Run(c, before) == Some(s) && AllAccounted(c, before, s) && Step(c, s, Advance(t, call)) == Some(s')
    ensures AllAccounted(c, before + [Advance(t, call)], s')
  {
    var a, job := Advance(t, call), s.threads[t];
    var move := JobStep(c, s.shared, job, call);
    JobStepSourced(c, s.shared, job, call);
    forall id | id in s'.shared.minted && s'.shared.minted[id].source.Some?
      ensures Accounted(c, before + [a], s'.shared.minted[id].source.value.file,
                        s'.shared.minted[id].source.value.answer)
    {
      StaysAccounted(c, before, a, s'.shared.minted[id].source.value.file, s'.shared.minted[id].source.value.answer);
    }
    forall u | u in s'.threads && s'.threads[u].TStore?
      ensures Accounted(c, before + [a], s'.threads[u].photo.file, s'.threads[u].answer)
    {
      if u != t {
        StaysAccounted(c, before, a, s'.threads[u].photo.file, s'.threads[u].answer);
      } else if move.job.answer.ErrorBody? {
        assert (before + [a])[..|before|] == before;
        assert AnsweredAt(c, before + [a], |before|, job.photo.file, move.job.answer.body);
      }
    }
  }

  lemma OthersAccount(c: Config, before: seq<Action>, s: State, a: Action, s': State)
    requires AllAccounted(c, before, s) && !a.Advance? && Step(c, s, a) == Some(s')
    ensures AllAccounted(c, before + [a], s')
  {
    assert s'.shared.minted == s.shared.minted;
    forall id | id in s.shared.minted && s.shared.minted[id].source.Some?
      ensures Accounted(c, before + [a], s.shared.minted[id].source.value.file, s.shared.minted[id].source.value.answer)
    {
      StaysAccounted(c, before, a, s.shared.minted[id].source.value.file, s.shared.minted[id].source.value.answer);
    }
    forall t | t in s'.threads && s'.threads[t].TStore?
      ensures Accounted(c, before + [a], s'.threads[t].photo.file, s'.threads[t].answer)
    {
      assert t in s.threads && s.threads[t] == s'.threads[t];
      StaysAccounted(c, before, a, s.threads[t].photo.file, s.threads[t].answer);
    }
  }

  lemma {:induction false} RunAccounts(c: Config, actions: seq<Action>)
    requires Run(c, actions).Some?
    ensures AllAccounted(c, actions, Run(c, actions).value)
  {
    if actions != [] {
      var n := |actions| - 1;
      var before, a := actions[..n], actions[n];
      RunAccounts(c, before);
      assert actions == before + [a];
      if a.Advance? {
        AdvanceAccounts(c, before, Run(c, before).value, a.thread, a.call, Run(c, actions).value);
      } else {
        OthersAccount(c, before, Run(c, before).value, a, Run(c, actions).value);
      }
    }
  }

  /**
   In every run, a served thumbnail that is not the rendering of its picture belongs to a video,
   and a job for that video was answered with an error status and just the bytes served.
   */
  lemma OtherBytesWereAnswered(c: Config, actions: seq<Action>, i: nat)
    requires Run(c, actions).Some? && i < |Run(c, actions).value.log| && Run(c, actions).value.log[i].Served?
    requires Run(c, actions).value.log[i].kind.Thumbnail?
    ensures var s := Run(c, actions).value.shared;
      var o := Run(c, actions).value.log[i];
      && o.id in s.thumbs && s.thumbs[o.id].file in s.files && s.thumbs[o.id].file in s.minted
      && var file := s.thumbs[o.id].file;
         o.data == c.render(TypeOf(s.files[file]), s.minted[file].content)
         || (s.files[file].video && WasAnswered(c, actions, file, o.data))
  {
    ThumbnailsShowTheirPicture(c, actions, i);
    RunAccounts(c, actions);
    var s, o := Run(c, actions).value.shared, Run(c, actions).value.log[i];
    assert Accounted(c, actions, s.thumbs[o.id].file, s.minted[o.id].source.value.answer);
  }

  /** A read leaves everything but the cache as it was. */
  lemma {:induction false} ReadPathBare(c: Config, s: Shared, kind: Kind, id: string, r: Read, calls: seq<Call>)
    requires ReadPath(c, s, kind, id, r, calls).Some?
    ensures Bare(ReadPath(c, s, kind, id, r, calls).value.0) == Bare(s)
    decreases |calls|
  {
    if calls != [] {
      ReadPathBare(c, ReadEffect(s, id, r, calls[0]), kind, id, ReadNext(c, s, kind, id, r, calls[0]), calls[1..]);
    }
  }

  /** Up to the error body, however the generator's own read of the video went. */
  lemma ErrorPath(c: Config, s: Shared, m: Photo, fetch: seq<Call>, body: Bytes) returns (s1: Shared)
    requires m.event in s.events && m.file in s.files && m.mt == VIDEO
    requires ReadPath(c, s, Picture, m.file, RRow, fetch).Some?
    requires Over(ReadPath(c, s, Picture, m.file, RRow, fetch).value.1)
    ensures Bare(s1) == Bare(s)
    ensures JobRun(c, s, TEvent(m), [Through, Through] + (fetch + [Answered(body)]))
         == Some((s1, TStore(m, s.events[m.event], ThumbName(s.files[m.file].name), body, ErrorBody(body))))
  {
    var evt, name := s.events[m.event], s.files[m.file].name;
    var end := ReadPath(c, s, Picture, m.file, RRow, fetch).value;
    s1 := end.0;
    ReadPathBare(c, s, Picture, m.file, RRow, fetch);
    PicturePath(c, s, m, evt, name, RRow, fetch);
    JobCall(c, s1, TRead(m, evt, name, end.1), Answered(body), []);
    assert [Answered(body)] + [] == [Answered(body)];
    JobRunsJoin(c, s, TRead(m, evt, name, RRow), fetch, [Answered(body)]);
    OpeningPath(c, s, m, fetch + [Answered(body)]);
  }

  /**
   From every reachable state: however the generator's own read of a published video ended, an
   answer with an error status is stored and acknowledged, and its body served as the thumbnail.
   */
  lemma ErrorIsShown(c: Config, before: seq<Action>, t: nat, m: Photo, fetch: seq<Call>, body: Bytes, thumb: string)
    returns (all: seq<Action>)
    requires Run(c, before).Some? && t !in Run(c, before).value.threads && m.mt == VIDEO
    requires var s := Run(c, before).value.shared;
      && m in s.photos && m.event in s.events && thumb !in s.minted
      && ReadPath(c, s, Picture, m.file, RRow, fetch).Some?
      && Over(ReadPath(c, s, Picture, m.file, RRow, fetch).value.1)
    ensures var s := Run(c, before).value;
      && m.file in s.shared.files && Run(c, all).Some? && before <= all
      && Run(c, all).value.log == s.log + [Acked(m, thumb)]
           + [Served(Thumbnail, thumb, ThumbName(s.shared.files[m.file].name), body)]
  {
    var s := Run(c, before).value.shared;
    RunKeeps(c, before);
    var name := ThumbName(s.files[m.file].name);
    var s1 := ErrorPath(c, s, m, fetch, body);
    var first := [Through, Through] + (fetch + [Answered(body)]);
    var calls := AnswerArrives(c, before, t, m, first, s1, body, ErrorBody(body), thumb);
    var second := before + Thread(t, TEvent(m), calls, Through);
    ThumbOnRecord(c, second, s.events, s, m, thumb, name, body, ErrorBody(body));
    var more := MediaIsServed(c, second, t, Thumbnail, thumb);
    all := second + Thread(t, Get(Thumbnail, thumb, RRow), more, Through);
  }

  /** A first upload, whose job finds the picture's route out of order: the error page is served as its thumbnail. */
  lemma VideoShowsError(c: Config) returns (all: seq<Action>, up: Upload, page: Bytes)
    ensures Run(c, all).Some? && page != c.render(VIDEO, up.content)
    ensures Run(c, all).value.log ==
      [Uploaded(up, "v")] + [Acked(Photo(1, "v", VIDEO), "t")] + [Served(Thumbnail, "t", ThumbName("a.mp4"), page)]
  {
    up := Upload(1, "a.mp4", [], "video/mp4");
    page := c.render(VIDEO, []) + [0];
    var evt := Event(true, false, 0);
    var first := [CreateEvent(1, evt)];
    OneAction(c, EMPTY, CreateEvent(1, evt));
    UploadArrives(c, first, 0, up, VIDEO, "v");
    var second := first + Thread(0, UCheck(up), UploadCalls(c, evt, "v"), Through);
    var fetch: seq<Call> := [Fault];
    assert fetch[1..] == [];
    all := ErrorIsShown(c, second, 0, Photo(1, "v", VIDEO), fetch, page, "t");
  }
}
