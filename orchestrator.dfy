/**
 * The download routes (routes/download.py): `run_download_job`, the worker that
 * drives one job through its phases, and the job registry behind the
 * `start`, `status`, `list` and `clear` endpoints.
 *
 * The worker's world is explicit: the remote answers (`Remote`), the filesystem
 * (`Fs`), the script of tool runs, the working directory, the clock reading used
 * for every time stamp of one run, and the traceback text the failure path logs.
 */
module Orchestrator {
  import opened Text
  import opened Seqs
  import opened Resolver
  import opened Executor
  import opened Models

  datatype Env = Env(remote: Remote, downloadFolder: string, cwd: string, now: nat, traceback: string)

  /** The job, the filesystem and the tool script after a phase. */
  datatype JobRun = JobRun(st: JobState, fs: Fs, runs: seq<ToolRun>)

  /** The downloader settings the worker passes on from the job configuration. */
  function ToolConfigOf(c: JobConfig): ToolConfig {
    ToolConfig(c.maxWorkers, c.maxRetries, c.timeout)
  }

  /** `job.season`: the configured season, or the detected one when it is 0. */
  function EffectiveSeason(configured: int, title: string): (s: int)
    ensures configured != 0 ==> s == configured
    ensures configured == 0 ==> s == DetectSeason(title)
  {
    if configured == 0 then DetectSeason(title) else configured
  }

  // ---------------------------------------------------------------------------
  // Selection

  /** `in_range`: the episode's key lies between the keys of the two bounds. */
  predicate InRange(id: string, startId: string, endId: string) {
    KeyLe(SafeEpisodeKey(startId), SafeEpisodeKey(id)) && KeyLe(SafeEpisodeKey(id), SafeEpisodeKey(endId))
  }

  /** Whether the selection mode keeps an episode. */
  predicate Wanted(c: JobConfig, ep: Episode) {
    if c.downloadMode == "Single Episode" then ep.id == c.singleEpisode
    else if c.downloadMode == "Episode Range" then InRange(ep.id, c.startEpisode, c.endEpisode)
    else true
  }

  function Selector(c: JobConfig): Episode -> bool {
    ep => Wanted(c, ep)
  }

  /** The selection step: a comprehension for the two filtering modes, the whole list otherwise. */
  function SelectEpisodes(episodes: seq<Episode>, c: JobConfig): (r: seq<Episode>)
    ensures |r| <= |episodes|
  {
    if c.downloadMode == "Single Episode" || c.downloadMode == "Episode Range" then Filter(episodes, Selector(c))
    else episodes
  }

  /** The selection keeps exactly the wanted episodes, in list order; "All Episodes" (or
      any other mode) keeps them all. */
  lemma SelectionSpec(episodes: seq<Episode>, c: JobConfig)
    ensures var r := SelectEpisodes(episodes, c);
      && (forall ep :: ep in r <==> ep in episodes && Wanted(c, ep))
      && IsSubsequence(r, episodes)
      && (c.downloadMode != "Single Episode" && c.downloadMode != "Episode Range" ==> r == episodes)
  {
    FilterSpec(episodes, Selector(c));
    if c.downloadMode != "Single Episode" && c.downloadMode != "Episode Range" {
      SubsequenceRefl(episodes);
    }
  }

  lemma {:induction false} SubsequenceRefl<T>(s: seq<T>)
    ensures IsSubsequence(s, s)
    decreases |s|
  {
    if s != [] {
      SubsequenceRefl(s[1..]);
    }
  }

  /** Every entry of the listing carries the key of its own id. */
  lemma EpisodeListKeys(remote: Remote, animeId: string)
    ensures forall m :: 0 <= m < |EpisodeList(remote, animeId)| ==>
      EpisodeList(remote, animeId)[m].sortKey == SafeEpisodeKey(EpisodeList(remote, animeId)[m].id)
  {
    var l, u := EpisodeList(remote, animeId), Unsorted(ListingAnchors(remote, animeId));
    EpisodeListSpec(remote, animeId, Episode("", SafeEpisodeKey(""), "", "", ""));
    forall m | 0 <= m < |l| ensures l[m].sortKey == SafeEpisodeKey(l[m].id) {
      assert l[m] in multiset(l);
      var n :| 0 <= n < |u| && u[n] == l[m];
    }
  }

  /** A range selection from the episode listing is a contiguous stretch of it: whatever
      lies between two selected episodes is selected too. */
  lemma RangeIsContiguous(remote: Remote, animeId: string, c: JobConfig, i: nat, j: nat, k: nat)
    requires c.downloadMode == "Episode Range"
    requires i <= j <= k < |EpisodeList(remote, animeId)|
    requires Wanted(c, EpisodeList(remote, animeId)[i]) && Wanted(c, EpisodeList(remote, animeId)[k])
    ensures Wanted(c, EpisodeList(remote, animeId)[j])
  {
    var l := EpisodeList(remote, animeId);
    EpisodeListSpec(remote, animeId, l[j]);
    EpisodeListKeys(remote, animeId);
    SortedRangeContiguous(l, c.startEpisode, c.endEpisode, i, j, k);
  }

  lemma SortedRangeContiguous(l: seq<Episode>, startId: string, endId: string, i: nat, j: nat, k: nat)
    requires SortedBy(l, EpisodeLe)
    requires forall m :: 0 <= m < |l| ==> l[m].sortKey == SafeEpisodeKey(l[m].id)
    requires i <= j <= k < |l|
    requires InRange(l[i].id, startId, endId) && InRange(l[k].id, startId, endId)
    ensures InRange(l[j].id, startId, endId)
  {
    KeyLeTotalOrder();
    if i < j {
      assert EpisodeLe(l[i], l[j]);
    }
    if j < k {
      assert EpisodeLe(l[j], l[k]);
    }
  }

  // ---------------------------------------------------------------------------
  // One episode

  /** The job, filesystem and tool script after one episode, the path it downloaded (if
      any), and the error `download_episode` raised (if any). */
  datatype Step = Step(st: JobState, fs: Fs, runs: seq<ToolRun>, file: Option<string>, raised: Option<OsError>)

  /** `int((completed / total) * 100)`, computed exactly. */
  function Percent(done: nat, total: nat): (p: nat)
    requires total > 0
    ensures done <= total ==> p <= 100
    ensures done == total ==> p == 100
  {
    PercentBounds(done, total);
    (100 * done) / total
  }

  lemma PercentBounds(done: nat, total: nat)
    requires total > 0
    ensures done <= total ==> (100 * done) / total <= 100
    ensures done == total ==> (100 * done) / total == 100
  {
    var q, r := (100 * done) / total, (100 * done) % total;
    assert 100 * done == q * total + r && 0 <= r < total;
    assert (q - 100) * total == 100 * done - 100 * total - r;
    if done <= total {
      assert (q - 100) * total < total;
      MulBelow(q - 100, total);
    }
    if done == total {
      assert (q - 100) * total == -r;
      MulBelow(100 - q, total);
      assert (100 - q) * total == r;
    }
  }

  lemma MulBelow(a: int, b: int)
    requires b > 0 && a * b < b
    ensures a <= 0
  {
  }

  function EpisodePath(dir: string, title: string, season: int, id: string): string {
    Join(dir, EpisodeFilename(title, season, id))
  }

  /** One iteration of the episode loop: choose a server, resolve the video, download. */
  function EpisodeStep(st: JobState, fs: Fs, runs: seq<ToolRun>, env: Env, title: string, season: int,
                       dir: string, ep: Episode, idx: nat): (r: Step)
    requires st.totalEpisodes > 0
    ensures StepKeeps(st, r, EpisodePath(dir, title, season, ep.id))
  {
    var now := env.now;
    var st1 := WithLog(st.(currentEpisode := Some(ep.id)), "INFO",
      "Processing episode " + ep.id + " (" + NatToString(idx) + "/" + NatToString(st.totalEpisodes) + ")", now);
    var servers := VideoServers(env.remote, ep.token);
    if servers == [] then
      Step(WithLog(st1, "ERROR", "No servers available for episode " + ep.id, now), fs, runs, None, None)
    else
      var server := ChooseServer(servers, st.config.preferType, st.config.preferServer).value;
      var st2 := WithLog(st1, "INFO", "Using server: " + server.name, now);
      var video := VideoDataOf(env.remote, server.serverId);
      if video.None? then
        Step(WithLog(st2, "ERROR", "Could not resolve video data for episode " + ep.id, now), fs, runs, None, None)
      else
        var path := EpisodePath(dir, title, season, ep.id);
        var o := DownloadEpisodeSpec(fs, runs, env.remote.fetchable, ToolConfigOf(st.config),
                                     video.value.videoUrl, path, video.value.subtitles);
        RecordOutcome(st2, o, path, ep.id, now)
  }

  /** The end of an iteration: an error `download_episode` raised leaves the job as it is;
      a success counts the episode and records its file; a failure is logged. */
  function RecordOutcome(st: JobState, o: Outcome, path: string, epId: string, now: nat): (r: Step)
    requires st.totalEpisodes > 0
    ensures StepKeeps(st, r, path)
    ensures r.fs == o.fs && r.runs == o.runs && r.raised == o.raised
    ensures r.file.Some? <==> o.raised.None? && o.ok
  {
    if o.raised.Some? then Step(st, o.fs, o.runs, None, o.raised)
    else if o.ok then
      var done := st.completedEpisodes + 1;
      var st1 := st.(completedEpisodes := done, progress := Percent(done, st.totalEpisodes),
                     downloadedFiles := st.downloadedFiles + [LastSegment(path)]);
      Step(WithLog(st1, "INFO", "\U{2705} Successfully downloaded episode " + epId, now), o.fs, o.runs, Some(path), None)
    else
      Step(WithLog(st, "ERROR", "\U{274C} Failed to download episode " + epId, now), o.fs, o.runs, None, None)
  }

  /** A reported file exists once the iteration ends, and the only error an iteration
      raises is the failure to delete a stale, locked file at the episode's path. */
  lemma EpisodeStepSpec(st: JobState, fs: Fs, runs: seq<ToolRun>, env: Env, title: string, season: int,
                        dir: string, ep: Episode, idx: nat)
    requires st.totalEpisodes > 0
    ensures var r := EpisodeStep(st, fs, runs, env, title, season, dir, ep, idx);
      && (r.file.Some? ==> r.file.value in r.fs.files)
      && (r.raised.Some? ==> r.raised == Some(PermissionDenied(EpisodePath(dir, title, season, ep.id))))
      && (EpisodePath(dir, title, season, ep.id) !in fs.locked ==> r.raised.None?)
  {
    var servers := VideoServers(env.remote, ep.token);
    if servers != [] {
      var server := ChooseServer(servers, st.config.preferType, st.config.preferServer).value;
      var video := VideoDataOf(env.remote, server.serverId);
      if video.Some? {
        var path := EpisodePath(dir, title, season, ep.id);
        var cfg := ToolConfigOf(st.config);
        DownloadEpisodeRetries(fs, runs, env.remote.fetchable, cfg, video.value.videoUrl, path, video.value.subtitles);
        DownloadEpisodeRaise(fs, runs, env.remote.fetchable, cfg, video.value.videoUrl, path, video.value.subtitles);
      }
    }
  }

  // ---------------------------------------------------------------------------
  // The episode loop

  datatype Loop = Loop(st: JobState, fs: Fs, runs: seq<ToolRun>, files: seq<string>, raised: Option<OsError>)

  /** The body of the episode loop: one episode's effect on the job, the filesystem and the
      tool script, given the episode and its 1-based position. */
  type Body = (JobState, Fs, seq<ToolRun>, Episode, nat) --> Step

  /** What the loop relies on about one run of its body: the job keeps its fixed fields, a
      reported file is the episode's path, counts one more completed episode and adds its
      base name to the job's list, and an episode without a file leaves the count and the
      list alone. */
  predicate StepKeeps(st: JobState, s: Step, path: string) {
    && s.st.totalEpisodes == st.totalEpisodes && s.st.status == st.status && s.st.config == st.config
    && s.st.error == st.error && s.st.endTime == st.endTime && s.st.mergedFile == st.mergedFile
    && (s.file.Some? ==> s.raised.None? && s.file.value == path && s.st.completedEpisodes == st.completedEpisodes + 1)
    && (s.file.None? ==> s.st.completedEpisodes == st.completedEpisodes)
    && s.st.downloadedFiles == st.downloadedFiles + if s.file.Some? then [LastSegment(s.file.value)] else []
  }

  /** The only error one run of the body raises: a refused deletion of the episode's path. */
  predicate StepRaises(s: Step, path: string) {
    s.raised.Some? ==> s.raised == Some(PermissionDenied(path))
  }

  ghost predicate BodyKeeps(body: Body, pathOf: Episode -> string) {
    forall st: JobState, fs: Fs, runs: seq<ToolRun>, ep: Episode, idx: nat | st.totalEpisodes > 0 ::
      && body.requires(st, fs, runs, ep, idx) && StepKeeps(st, body(st, fs, runs, ep, idx), pathOf(ep))
      && StepRaises(body(st, fs, runs, ep, idx), pathOf(ep))
  }

  /** `for idx, ep in enumerate(selected, 1)` from the `i`-th episode on, with `files`
      downloaded so far; an error the body raises ends the loop. The loop adds at most one
      path per remaining episode, each the path of one of them, and counts one completed
      episode per path it adds. */
  function EpisodeLoop(body: Body, ghost pathOf: Episode -> string, st: JobState, fs: Fs, runs: seq<ToolRun>,
                       selected: seq<Episode>, i: nat, files: seq<string>): (r: Loop)
    requires st.totalEpisodes > 0 && i <= |selected| && BodyKeeps(body, pathOf)
    ensures r.st.totalEpisodes == st.totalEpisodes && r.st.status == st.status && r.st.config == st.config
    ensures r.st.error == st.error && r.st.endTime == st.endTime && r.st.mergedFile == st.mergedFile
    ensures |files| <= |r.files| <= |files| + (|selected| - i) && r.files[..|files|] == files
    ensures r.st.completedEpisodes == st.completedEpisodes + (|r.files| - |files|)
    ensures forall k :: |files| <= k < |r.files| ==> r.files[k] in PathsFrom(pathOf, selected, i)
    decreases |selected| - i
  {
    if i == |selected| then Loop(st, fs, runs, files, None)
    else
      var s := body(st, fs, runs, selected[i], i + 1);
      assert StepKeeps(st, s, pathOf(selected[i]));
      if s.raised.Some? then Loop(s.st, s.fs, s.runs, files, s.raised)
      else
        var files' := Downloaded(files, s.file);
        var r := EpisodeLoop(body, pathOf, s.st, s.fs, s.runs, selected, i + 1, files');
        assert r.files[..|files|] == r.files[..|files'|][..|files|];
        PathsFromStep(pathOf, selected, i);
        assert forall k :: |files| <= k < |files'| ==> r.files[k] == r.files[..|files'|][k] == s.file.value;
        r
  }

  /** The loop adds to the job's list the base name of each path it downloads, in order. */
  lemma {:induction false} EpisodeLoopNames(body: Body, pathOf: Episode -> string, st: JobState, fs: Fs,
                                            runs: seq<ToolRun>, selected: seq<Episode>, i: nat, files: seq<string>)
    requires st.totalEpisodes > 0 && i <= |selected| && BodyKeeps(body, pathOf)
    ensures var r := EpisodeLoop(body, pathOf, st, fs, runs, selected, i, files);
      r.st.downloadedFiles == st.downloadedFiles + Map(r.files[|files|..], LastSegment)
    decreases |selected| - i
  {
    var r := EpisodeLoop(body, pathOf, st, fs, runs, selected, i, files);
    if i == |selected| {
      assert r.files[|files|..] == [];
    } else {
      var s := body(st, fs, runs, selected[i], i + 1);
      assert StepKeeps(st, s, pathOf(selected[i]));
      LoopUnfold(body, pathOf, st, fs, runs, selected, i, files);
      if s.raised.Some? {
        assert r.files[|files|..] == [];
      } else {
        var files' := Downloaded(files, s.file);
        EpisodeLoopNames(body, pathOf, s.st, s.fs, s.runs, selected, i + 1, files');
        NamesAfterStep(st.downloadedFiles, s.st.downloadedFiles, r.st.downloadedFiles, files, s.file, r.files);
      }
    }
  }

  /** One step of `EpisodeLoopNames`: the names of this episode, then those of the rest. */
  lemma NamesAfterStep(names0: seq<string>, names1: seq<string>, names2: seq<string>,
                       files: seq<string>, file: Option<string>, out: seq<string>)
    requires names1 == names0 + if file.Some? then [LastSegment(file.value)] else []
    requires |Downloaded(files, file)| <= |out| && out[..|Downloaded(files, file)|] == Downloaded(files, file)
    requires names2 == names1 + Map(out[|Downloaded(files, file)|..], LastSegment)
    ensures names2 == names0 + Map(out[|files|..], LastSegment)
  {
    if file.Some? {
      assert out[|files|] == Downloaded(files, file)[|files|] == file.value;
      MapStep(names0, out, |files|, LastSegment);
    } else {
      assert names1 == names0;
    }
  }

  /** An error ends the loop only when one of the remaining episodes raised it: the refused
      deletion of that episode's path. */
  lemma {:induction false} EpisodeLoopRaises(body: Body, pathOf: Episode -> string, st: JobState, fs: Fs,
                                             runs: seq<ToolRun>, selected: seq<Episode>, i: nat, files: seq<string>)
    requires st.totalEpisodes > 0 && i <= |selected| && BodyKeeps(body, pathOf)
    ensures var r := EpisodeLoop(body, pathOf, st, fs, runs, selected, i, files);
      r.raised.Some? ==> exists j :: i <= j < |selected| && r.raised == Some(PermissionDenied(pathOf(selected[j])))
    decreases |selected| - i
  {
    if i < |selected| {
      var s := body(st, fs, runs, selected[i], i + 1);
      assert StepKeeps(st, s, pathOf(selected[i])) && StepRaises(s, pathOf(selected[i]));
      LoopUnfold(body, pathOf, st, fs, runs, selected, i, files);
      if s.raised.None? {
        EpisodeLoopRaises(body, pathOf, s.st, s.fs, s.runs, selected, i + 1, Downloaded(files, s.file));
      }
    }
  }

  /** One turn of the loop: the body's step, then either the error it raised or the rest. */
  lemma LoopUnfold(body: Body, pathOf: Episode -> string, st: JobState, fs: Fs, runs: seq<ToolRun>,
                   selected: seq<Episode>, i: nat, files: seq<string>)
    requires st.totalEpisodes > 0 && i < |selected| && BodyKeeps(body, pathOf)
    ensures var s := body(st, fs, runs, selected[i], i + 1);
      EpisodeLoop(body, pathOf, st, fs, runs, selected, i, files) ==
        if s.raised.Some? then Loop(s.st, s.fs, s.runs, files, s.raised)
        else EpisodeLoop(body, pathOf, s.st, s.fs, s.runs, selected, i + 1, Downloaded(files, s.file))
  {
  }

  /** The loop's list of downloaded paths after one episode. */
  function Downloaded(files: seq<string>, file: Option<string>): (r: seq<string>)
    ensures |r| == |files| + (if file.Some? then 1 else 0) && r[..|files|] == files
  {
    files + if file.Some? then [file.value] else []
  }

  /** The paths of the selected episodes from the `i`-th on. */
  ghost function PathsFrom(pathOf: Episode -> string, selected: seq<Episode>, i: nat): set<string> {
    set j | i <= j < |selected| :: pathOf(selected[j])
  }

  lemma PathsFromStep(pathOf: Episode -> string, selected: seq<Episode>, i: nat)
    requires i < |selected|
    ensures PathsFrom(pathOf, selected, i) == {pathOf(selected[i])} + PathsFrom(pathOf, selected, i + 1)
  {
  }

  /** The body `run_download_job` runs for each selected episode. */
  function StepBody(env: Env, title: string, season: int, dir: string): Body {
    (st: JobState, fs: Fs, runs: seq<ToolRun>, ep: Episode, idx: nat) requires st.totalEpisodes > 0 =>
      EpisodeStep(st, fs, runs, env, title, season, dir, ep, idx)
  }

  /** Where the body downloads an episode to. */
  function PathOf(dir: string, title: string, season: int): Episode -> string {
    (ep: Episode) => EpisodePath(dir, title, season, ep.id)
  }

  lemma StepBodyApplies(env: Env, title: string, season: int, dir: string,
                        st: JobState, fs: Fs, runs: seq<ToolRun>, ep: Episode, idx: nat)
    requires st.totalEpisodes > 0
    ensures StepBody(env, title, season, dir)(st, fs, runs, ep, idx) == EpisodeStep(st, fs, runs, env, title, season, dir, ep, idx)
  {
  }

  lemma StepBodyKeeps(env: Env, title: string, season: int, dir: string)
    ensures BodyKeeps(StepBody(env, title, season, dir), PathOf(dir, title, season))
  {
    forall st: JobState, fs: Fs, runs: seq<ToolRun>, ep: Episode, idx: nat | st.totalEpisodes > 0
      ensures StepKeeps(st, StepBody(env, title, season, dir)(st, fs, runs, ep, idx), PathOf(dir, title, season)(ep))
      ensures StepRaises(StepBody(env, title, season, dir)(st, fs, runs, ep, idx), PathOf(dir, title, season)(ep))
    {
      assert StepBody(env, title, season, dir)(st, fs, runs, ep, idx) == EpisodeStep(st, fs, runs, env, title, season, dir, ep, idx);
      EpisodeStepSpec(st, fs, runs, env, title, season, dir, ep, idx);
    }
  }

  /** The loop `run_download_job` runs over the selected episodes, downloading into `dir`. */
  function RunEpisodes(st: JobState, fs: Fs, runs: seq<ToolRun>, env: Env, title: string, season: int,
                       dir: string, selected: seq<Episode>): (r: Loop)
    requires st.totalEpisodes > 0
    ensures r.st.downloadedFiles == st.downloadedFiles + Map(r.files, LastSegment)
    ensures r.raised.Some? ==>
      exists j :: 0 <= j < |selected| && r.raised == Some(PermissionDenied(EpisodePath(dir, title, season, selected[j].id)))
  {
    StepBodyKeeps(env, title, season, dir);
    var body, pathOf := StepBody(env, title, season, dir), PathOf(dir, title, season);
    EpisodeLoopNames(body, pathOf, st, fs, runs, selected, 0, []);
    EpisodeLoopRaises(body, pathOf, st, fs, runs, selected, 0, []);
    var r := EpisodeLoop(body, pathOf, st, fs, runs, selected, 0, []);
    assert r.files[0..] == r.files;
    r
  }

  // ---------------------------------------------------------------------------
  // Merge and cleanup

  /** `list.remove(x)`: drop the first occurrence, or fail when there is none. */
  function RemoveFirst(s: seq<string>, x: string): (r: Option<seq<string>>)
    ensures r.None? <==> x !in s
    ensures r.Some? ==> |r.value| == |s| - 1 && multiset(r.value) == multiset(s) - multiset{x}
  {
    if s == [] then None
    else if s[0] == x then
      assert s == [x] + s[1..];
      Some(s[1..])
    else
      match RemoveFirst(s[1..], x)
      case None => None
      case Some(t) =>
        assert s == [s[0]] + s[1..];
        Some([s[0]] + t)
  }

  /** The message `list.remove` raises on a missing element. */
  const NotInList := "list.remove(x): x not in list"

  /** The removal loop: delete each episode file, and drop its name from the job's list
      when the deletion succeeds; any failure is logged as a warning. */
  function RemoveIndividual(st: JobState, fs: Fs, files: seq<string>, now: nat): (r: (JobState, Fs))
    ensures r.0 == st.(logs := r.0.logs, downloadedFiles := r.0.downloadedFiles)
    ensures r.1.locked == fs.locked && r.1.files == fs.files - (set f | f in files && f !in fs.locked)
    decreases |files|
  {
    if files == [] then (st, fs)
    else
      var st1 := RemoveOne(st, fs, files[0], now);
      var fs1 := RemoveFile(fs, files[0]).0;
      var r := RemoveIndividual(st1, fs1, files[1..], now);
      OnlyLogsAndFiles(st, st1, r.0);
      RemovedFiles(fs, files, r.1.files);
      r
  }

  /** The files left after deleting the first file and then the rest. */
  lemma RemovedFiles(fs: Fs, files: seq<string>, out: set<string>)
    requires files != []
    requires var fs1 := RemoveFile(fs, files[0]).0;
      out == fs1.files - (set f | f in files[1..] && f !in fs1.locked)
    ensures out == fs.files - (set f | f in files && f !in fs.locked)
  {
    var fs1 := RemoveFile(fs, files[0]).0;
    assert fs1.locked == fs.locked;
    forall x ensures x in out <==> x in fs.files && !(x in files && x !in fs.locked) {
      if x == files[0] {
      } else {
        assert x in files <==> x in files[1..] by {
          assert files == [files[0]] + files[1..];
        }
      }
    }
  }

  lemma OnlyLogsAndFiles(a: JobState, b: JobState, c: JobState)
    requires b == a.(logs := b.logs, downloadedFiles := b.downloadedFiles)
    requires c == b.(logs := c.logs, downloadedFiles := c.downloadedFiles)
    ensures c == a.(logs := c.logs, downloadedFiles := c.downloadedFiles)
  {
  }

  /** One iteration of the removal loop, on the job: a failed deletion is logged; a
      successful one drops the first occurrence of the base name from the job's list, or
      logs that the name was not there. */
  function RemoveOne(st: JobState, fs: Fs, f: string, now: nat): (r: JobState)
    ensures r == st.(logs := r.logs, downloadedFiles := r.downloadedFiles)
  {
    var name := LastSegment(f);
    var err := RemoveFile(fs, f).1;
    if err.Some? then WithLog(st, "WARN", "Could not remove " + name + ": " + ErrorText(err.value), now)
    else match RemoveFirst(st.downloadedFiles, name)
      case Some(rest) => st.(downloadedFiles := rest)
      case None => WithLog(st, "WARN", "Could not remove " + name + ": " + NotInList, now)
  }

  /** The base names of the files the removal loop deletes, one per successful `os.remove`. */
  ghost function DeletedNames(fs: Fs, files: seq<string>): multiset<string>
    decreases |files|
  {
    if files == [] then multiset{}
    else
      var (fs1, err) := RemoveFile(fs, files[0]);
      (if err.None? then multiset{LastSegment(files[0])} else multiset{}) + DeletedNames(fs1, files[1..])
  }

  /** The removal loop drops one occurrence of the base name of each file it deletes from
      the job's list (a name not in the list is only logged), and a refused deletion leaves
      the list alone. */
  lemma {:induction false} RemoveIndividualNames(st: JobState, fs: Fs, files: seq<string>, now: nat)
    ensures multiset(RemoveIndividual(st, fs, files, now).0.downloadedFiles) ==
      multiset(st.downloadedFiles) - DeletedNames(fs, files)
    decreases |files|
  {
    if files != [] {
      var f := files[0];
      var name := LastSegment(f);
      var (fs1, err) := RemoveFile(fs, f);
      var st1 := RemoveOne(st, fs, f, now);
      assert RemoveIndividual(st, fs, files, now) == RemoveIndividual(st1, fs1, files[1..], now);
      RemoveIndividualNames(st1, fs1, files[1..], now);
      var d0 := if err.None? then multiset{name} else multiset{};
      assert DeletedNames(fs, files) == d0 + DeletedNames(fs1, files[1..]);
      RemoveOneNames(st, fs, f, now);
      MultisetMinusTwice(multiset(st.downloadedFiles), d0, DeletedNames(fs1, files[1..]));
    }
  }

  /** One iteration drops one occurrence of the base name when the deletion succeeds. */
  lemma RemoveOneNames(st: JobState, fs: Fs, f: string, now: nat)
    ensures multiset(RemoveOne(st, fs, f, now).downloadedFiles) ==
      multiset(st.downloadedFiles) - if RemoveFile(fs, f).1.None? then multiset{LastSegment(f)} else multiset{}
  {
    var name := LastSegment(f);
    if RemoveFile(fs, f).1.None? && name !in st.downloadedFiles {
      assert multiset(st.downloadedFiles)[name] == 0;
    }
  }

  lemma MultisetMinusTwice<T>(a: multiset<T>, b: multiset<T>, c: multiset<T>)
    ensures a - b - c == a - (b + c)
  {
    forall x ensures (a - b - c)[x] == (a - (b + c))[x] {
    }
  }

  /** The merge block: taken only when merging is asked for and more than one episode was
      downloaded; the merged name is the range from the first to the last selected id. */
  function MergePhase(st: JobState, fs: Fs, runs: seq<ToolRun>, env: Env, title: string, season: int,
                      selected: seq<Episode>, files: seq<string>): (r: JobRun)
    requires selected != []
    ensures r.st.totalEpisodes == st.totalEpisodes && r.st.completedEpisodes == st.completedEpisodes
    ensures r.st.error == st.error && r.st.config == st.config
  {
    var now := env.now;
    if !(st.config.mergeEpisodes && |files| > 1) then JobRun(st, fs, runs)
    else
      var st1 := WithLog(st.(status := Merging), "INFO", "Merging " + NatToString(|files|) + " episodes...", now);
      var m := MergeSpec(fs, runs, env.cwd, files, title, season, selected[0].id, selected[|selected| - 1].id);
      if m.merged.None? then JobRun(WithLog(st1, "ERROR", "\U{274C} Merge failed", now), m.fs, m.runs)
      else
        var name := LastSegment(m.merged.value);
        var st2 := WithLog(st1.(mergedFile := Some(name)), "INFO", "\U{2705} Successfully merged into " + name, now);
        if st.config.keepIndividualFiles then JobRun(st2, m.fs, m.runs)
        else
          var st3 := WithLog(st2, "INFO", "Removing individual episode files...", now);
          var (st4, fs4) := RemoveIndividual(st3, m.fs, files, now);
          JobRun(st4, fs4, m.runs)
  }

  /** The merge block runs `merge_videos` exactly when merging is asked for and more than
      one episode was downloaded, over the range from the first to the last selected id,
      after setting the status to merging; otherwise it returns everything unchanged. A
      merge that returns a path records that path's base name, the merged name; a failed
      one leaves `mergedFile` alone. The episode files, and the list of their names, are
      kept on a failed merge and when `keep_individual_files` is set; otherwise the removal
      loop runs over them. */
  lemma MergePhaseSpec(st: JobState, fs: Fs, runs: seq<ToolRun>, env: Env, title: string, season: int,
                       selected: seq<Episode>, files: seq<string>)
    requires selected != []
    ensures var r := MergePhase(st, fs, runs, env, title, season, selected, files);
      && (!(st.config.mergeEpisodes && |files| > 1) ==> r == JobRun(st, fs, runs))
      && (st.config.mergeEpisodes && |files| > 1 ==>
            var first, last := selected[0].id, selected[|selected| - 1].id;
            var m := MergeSpec(fs, runs, env.cwd, files, title, season, first, last);
            && r.st.status == Merging && r.runs == m.runs
            && (m.merged.None? ==> r.st.mergedFile == st.mergedFile)
            && (m.merged.Some? ==> r.st.mergedFile == Some(LastSegment(m.merged.value))
                                   && r.st.mergedFile == Some(MergedFilename(title, season, first, last)))
            && (m.merged.None? || st.config.keepIndividualFiles ==>
                  r.fs == m.fs && r.st.downloadedFiles == st.downloadedFiles)
            && (m.merged.Some? && !st.config.keepIndividualFiles ==>
                  && r.fs.files == m.fs.files - (set f | f in files && f !in m.fs.locked)
                  && multiset(r.st.downloadedFiles) == multiset(st.downloadedFiles) - DeletedNames(m.fs, files)))
  {
    if st.config.mergeEpisodes && |files| > 1 {
      var now := env.now;
      var first, last := selected[0].id, selected[|selected| - 1].id;
      var m := MergeSpec(fs, runs, env.cwd, files, title, season, first, last);
      MergeSuccess(fs, runs, env.cwd, files, title, season, first, last);
      var st1 := WithLog(st.(status := Merging), "INFO", "Merging " + NatToString(|files|) + " episodes...", now);
      if m.merged.Some? && !st.config.keepIndividualFiles {
        var name := LastSegment(m.merged.value);
        var st2 := WithLog(st1.(mergedFile := Some(name)), "INFO", "\U{2705} Successfully merged into " + name, now);
        var st3 := WithLog(st2, "INFO", "Removing individual episode files...", now);
        RemoveIndividualNames(st3, m.fs, files, now);
        assert MergePhase(st, fs, runs, env, title, season, selected, files) ==
          JobRun(RemoveIndividual(st3, m.fs, files, now).0, RemoveIndividual(st3, m.fs, files, now).1, m.runs);
      }
    }
  }

  // ---------------------------------------------------------------------------
  // The whole job

  /** The `except` block: mark the job failed, stamp its end, log the error and the traceback. */
  function FailJob(st: JobState, message: string, env: Env): (r: JobState)
    ensures r.status == Failed && r.error == Some(message) && r.endTime == Some(env.now)
    ensures r.completedEpisodes == st.completedEpisodes && r.totalEpisodes == st.totalEpisodes
    ensures r.downloadedFiles == st.downloadedFiles && r.mergedFile == st.mergedFile
  {
    var st1 := st.(status := Failed, error := Some(message), endTime := Some(env.now));
    WithLog(WithLog(st1, "ERROR", "Job failed: " + message, env.now), "ERROR", env.traceback, env.now)
  }

  /** The last block of the `try`: mark the job completed at 100%. */
  function CompleteJob(st: JobState, now: nat): (r: JobState)
    ensures r.status == Completed && r.progress == 100 && r.endTime == Some(now) && r.error == st.error
    ensures r.completedEpisodes == st.completedEpisodes && r.totalEpisodes == st.totalEpisodes
  {
    var st1 := st.(status := Completed, progress := 100, endTime := Some(now));
    WithLog(st1, "INFO", "\U{1F389} Download job completed! Downloaded " + NatToString(st.completedEpisodes)
      + "/" + NatToString(st.totalEpisodes) + " episodes", now)
  }

  /** From the start of the episode loop to the end of the job. */
  function DownloadPhase(st: JobState, fs: Fs, runs: seq<ToolRun>, env: Env, title: string, season: int,
                         selected: seq<Episode>): (r: JobRun)
    requires st.totalEpisodes > 0 && selected != []
    ensures r.st.status == Completed || r.st.status == Failed
    ensures r.st.endTime == Some(env.now) && r.st.totalEpisodes == st.totalEpisodes
    ensures st.completedEpisodes <= r.st.completedEpisodes <= st.completedEpisodes + |selected|
    ensures r.st.status == Failed ==>
      && r.st.error.Some? && r.st.mergedFile == st.mergedFile
      && |st.downloadedFiles| <= |r.st.downloadedFiles| && r.st.downloadedFiles[..|st.downloadedFiles|] == st.downloadedFiles
      && |r.st.downloadedFiles| - |st.downloadedFiles| == r.st.completedEpisodes - st.completedEpisodes
    ensures r.st.status == Completed ==> r.st.progress == 100 && r.st.error == st.error
  {
    var loop := RunEpisodes(st, fs, runs, env, title, season, Join(env.downloadFolder, title), selected);
    if loop.raised.Some? then JobRun(FailJob(loop.st, ErrorText(loop.raised.value), env), loop.fs, loop.runs)
    else
      var m := MergePhase(loop.st, loop.fs, loop.runs, env, title, season, selected, loop.files);
      JobRun(CompleteJob(m.st, env.now), m.fs, m.runs)
  }

  /** How the phases before the episode loop end: the job failed, or it is ready to
      download the selected episodes. */
  datatype Prepared =
    | Aborted(st: JobState)
    | Ready(st: JobState, title: string, season: int, selected: seq<Episode>)

  /** The fetching phases: details, season, episode list and selection. */
  function Prepare(st: JobState, env: Env): (r: Prepared)
    ensures r.Aborted? ==> r.st.status == Failed && r.st.error.Some? && r.st.endTime == Some(env.now)
    ensures r.Aborted? ==> r.st.completedEpisodes == st.completedEpisodes && r.st.totalEpisodes == st.totalEpisodes
    ensures r.Ready? ==>
      && r.selected != [] && r.st.totalEpisodes == |r.selected|
      && r.st.status == Downloading && r.st.error == st.error && r.st.endTime == st.endTime
      && r.st.completedEpisodes == st.completedEpisodes && r.st.config == st.config
      && r.st.mergedFile == st.mergedFile && r.st.downloadedFiles == st.downloadedFiles
  {
    var now := env.now;
    var st1 := WithLog(st.(status := FetchingInfo), "INFO", "Fetching anime details from " + st.animeUrl, now);
    var (animeId, title) := AnimeDetails(env.remote, st.animeUrl);
    if animeId.None? || animeId.value == "" then Aborted(FailJob(st1, "Could not extract anime ID from URL", env))
    else Identified(st1, env, animeId.value, title)
  }

  /** Once the anime is identified: record its title and season, then fetch and select. */
  function Identified(st: JobState, env: Env, animeId: string, title: string): Prepared {
    var now := env.now;
    var st1 := WithLog(st.(animeTitle := Some(title)), "INFO", "Found anime: " + title, now);
    var season := EffectiveSeason(st.config.seasonNumber, title);
    var st2 := WithLog(st1.(season := Some(season)), "INFO", "Season: " + IntToString(season), now);
    Select(st2.(status := FetchingEpisodes), env, animeId, title, season)
  }

  /** The episode-list phase: fetch the list, select from it, and get ready to download. */
  function Select(st: JobState, env: Env, animeId: string, title: string, season: int): (r: Prepared)
    ensures r.Aborted? ==> r.st.status == Failed && r.st.error.Some? && r.st.endTime == Some(env.now)
    ensures r.Aborted? ==> r.st.completedEpisodes == st.completedEpisodes && r.st.totalEpisodes == st.totalEpisodes
    ensures r.Ready? ==>
      && r.selected != [] && r.st.totalEpisodes == |r.selected| && r.title == title && r.season == season
      && r.selected == SelectEpisodes(EpisodeList(env.remote, animeId), st.config)
      && r.st.status == Downloading && r.st.error == st.error && r.st.endTime == st.endTime
      && r.st.completedEpisodes == st.completedEpisodes && r.st.config == st.config
      && r.st.mergedFile == st.mergedFile && r.st.downloadedFiles == st.downloadedFiles
  {
    var now := env.now;
    var episodes := EpisodeList(env.remote, animeId);
    if episodes == [] then Aborted(FailJob(st, "No episodes found", env))
    else
      var st1 := WithLog(st, "INFO", "Found " + NatToString(|episodes|) + " episodes", now);
      var selected := SelectEpisodes(episodes, st.config);
      if selected == [] then Aborted(FailJob(st1, "No episodes match your selection", env))
      else
        var st2 := WithLog(st1.(totalEpisodes := |selected|), "INFO",
          "Will download " + NatToString(|selected|) + " episode(s)", now);
        Ready(st2.(status := Downloading), title, season, selected)
  }

  /** `run_download_job`: every run ends in one of the two final states, stamped with its
      end time; a completed run is at 100%, records no new error, and counts at most one
      completed episode per selected episode; a failed run records the reason. */
  function RunJob(st: JobState, fs: Fs, runs: seq<ToolRun>, env: Env): (r: JobRun)
    ensures r.st.status == Completed || r.st.status == Failed
    ensures r.st.endTime == Some(env.now)
    ensures r.st.status == Failed ==> r.st.error.Some?
    ensures st.completedEpisodes <= r.st.completedEpisodes <= st.completedEpisodes + r.st.totalEpisodes
    ensures r.st.status == Completed ==> r.st.progress == 100 && r.st.error == st.error && r.st.totalEpisodes > 0
  {
    match Prepare(st, env)
    case Aborted(failed) => JobRun(failed, fs, runs)
    case Ready(st1, title, season, selected) => DownloadPhase(st1, fs, runs, env, title, season, selected)
  }

  /** A job that starts without an error completes exactly when it ends without one. */
  lemma RunJobOutcome(st: JobState, fs: Fs, runs: seq<ToolRun>, env: Env)
    requires st.error.None?
    ensures RunJob(st, fs, runs, env).st.status == Completed <==> RunJob(st, fs, runs, env).st.error.None?
  {
  }

  // ---------------------------------------------------------------------------
  // The worker, in place on the job

  /** One iteration of the episode loop, updating the job in place. */
  method ProcessEpisode(job: DownloadJob, fs: Fs, runs: seq<ToolRun>, env: Env, title: string, season: int,
                        dir: string, ep: Episode, idx: nat)
    returns (fs': Fs, runs': seq<ToolRun>, file: Option<string>, raised: Option<OsError>)
    requires job.totalEpisodes > 0
    modifies job
    ensures Step(job.State(), fs', runs', file, raised) == EpisodeStep(old(job.State()), fs, runs, env, title, season, dir, ep, idx)
  {
    ghost var st := job.State();
    var now := env.now;
    job.currentEpisode := Some(ep.id);
    job.AddLog("INFO", "Processing episode " + ep.id + " (" + NatToString(idx) + "/" + NatToString(job.totalEpisodes) + ")", now);
    ghost var st1 := job.State();
    assert st1 == WithLog(st.(currentEpisode := Some(ep.id)), "INFO",
      "Processing episode " + ep.id + " (" + NatToString(idx) + "/" + NatToString(st.totalEpisodes) + ")", now);
    var servers := VideoServers(env.remote, ep.token);
    if servers == [] {
      job.AddLog("ERROR", "No servers available for episode " + ep.id, now);
      return fs, runs, None, None;
    }
    var server := ChooseServer(servers, job.config.preferType, job.config.preferServer).value;
    job.AddLog("INFO", "Using server: " + server.name, now);
    ghost var st2 := job.State();
    assert st2 == WithLog(st1, "INFO", "Using server: " + server.name, now);
    var video := GetVideoData(env.remote, server.serverId);
    if video.None? {
      job.AddLog("ERROR", "Could not resolve video data for episode " + ep.id, now);
      return fs, runs, None, None;
    }
    var path := EpisodePath(dir, title, season, ep.id);
    var o := DownloadEpisode(fs, runs, env.remote.fetchable, ToolConfigOf(job.config),
                             video.value.videoUrl, path, video.value.subtitles);
    file, raised := Record(job, o, path, ep.id, now);
    fs', runs' := o.fs, o.runs;
  }

  /** The end of an iteration, on the job in place. */
  method Record(job: DownloadJob, o: Outcome, path: string, epId: string, now: nat)
    returns (file: Option<string>, raised: Option<OsError>)
    requires job.totalEpisodes > 0
    modifies job
    ensures Step(job.State(), o.fs, o.runs, file, raised) == RecordOutcome(old(job.State()), o, path, epId, now)
  {
    if o.raised.Some? {
      return None, o.raised;
    }
    if o.ok {
      CountSuccess(job, path);
      job.AddLog("INFO", "\U{2705} Successfully downloaded episode " + epId, now);
      return Some(path), None;
    }
    job.AddLog("ERROR", "\U{274C} Failed to download episode " + epId, now);
    return None, None;
  }

  /** The counters and the file list of a successful iteration, on the job in place. */
  method CountSuccess(job: DownloadJob, path: string)
    requires job.totalEpisodes > 0
    modifies job
    ensures job.State() == old(job.State()).(completedEpisodes := old(job.completedEpisodes) + 1,
      progress := Percent(old(job.completedEpisodes) + 1, old(job.totalEpisodes)),
      downloadedFiles := old(job.downloadedFiles) + [LastSegment(path)])
  {
    job.completedEpisodes := job.completedEpisodes + 1;
    job.progress := Percent(job.completedEpisodes, job.totalEpisodes);
    job.downloadedFiles := job.downloadedFiles + [LastSegment(path)];
  }

  /** The episode loop, updating the job in place; it stops at the first error a download raises. */
  method DownloadEpisodes(job: DownloadJob, fs: Fs, runs: seq<ToolRun>, env: Env, title: string, season: int,
                          dir: string, selected: seq<Episode>)
    returns (fs': Fs, runs': seq<ToolRun>, files: seq<string>, raised: Option<OsError>)
    requires job.totalEpisodes > 0
    modifies job
    ensures Loop(job.State(), fs', runs', files, raised) == RunEpisodes(old(job.State()), fs, runs, env, title, season, dir, selected)
  {
    StepBodyKeeps(env, title, season, dir);
    ghost var body, pathOf := StepBody(env, title, season, dir), PathOf(dir, title, season);
    ghost var start := job.State();
    fs', runs', files, raised := fs, runs, [], None;
    var i := 0;
    while i < |selected|
      invariant i <= |selected| && job.totalEpisodes > 0 && raised.None?
      invariant EpisodeLoop(body, pathOf, start, fs, runs, selected, 0, []) ==
        EpisodeLoop(body, pathOf, job.State(), fs', runs', selected, i, files)
      decreases |selected| - i
    {
      ghost var before := job.State();
      ghost var fsBefore, runsBefore := fs', runs';
      var file;
      fs', runs', file, raised := ProcessEpisode(job, fs', runs', env, title, season, dir, selected[i], i + 1);
      StepBodyApplies(env, title, season, dir, before, fsBefore, runsBefore, selected[i], i + 1);
      LoopUnfold(body, pathOf, before, fsBefore, runsBefore, selected, i, files);
      if raised.Some? {
        return;
      }
      if file.Some? {
        files := files + [file.value];
      }
      i := i + 1;
    }
  }

  /** The removal loop, updating the job's file list in place. */
  method RemoveIndividualFiles(job: DownloadJob, fs: Fs, files: seq<string>, now: nat) returns (fs': Fs)
    modifies job
    ensures (job.State(), fs') == RemoveIndividual(old(job.State()), fs, files, now)
  {
    fs' := fs;
    for k := 0 to |files|
      invariant RemoveIndividual(old(job.State()), fs, files, now) == RemoveIndividual(job.State(), fs', files[k..], now)
    {
      assert files[k..][1..] == files[k + 1..];
      var f := files[k];
      var name := LastSegment(f);
      var err;
      fs', err := RemoveFile(fs', f).0, RemoveFile(fs', f).1;
      if err.Some? {
        job.AddLog("WARN", "Could not remove " + name + ": " + ErrorText(err.value), now);
      } else {
        var rest := RemoveFirst(job.downloadedFiles, name);
        if rest.Some? {
          job.downloadedFiles := rest.value;
        } else {
          job.AddLog("WARN", "Could not remove " + name + ": " + NotInList, now);
        }
      }
    }
  }

  /** The merge block, updating the job in place. */
  method MergeStage(job: DownloadJob, fs: Fs, runs: seq<ToolRun>, env: Env, title: string, season: int,
                    selected: seq<Episode>, files: seq<string>) returns (fs': Fs, runs': seq<ToolRun>)
    requires selected != []
    modifies job
    ensures JobRun(job.State(), fs', runs') == MergePhase(old(job.State()), fs, runs, env, title, season, selected, files)
  {
    var now := env.now;
    if !(job.config.mergeEpisodes && |files| > 1) {
      return fs, runs;
    }
    job.status := Merging;
    job.AddLog("INFO", "Merging " + NatToString(|files|) + " episodes...", now);
    var m := MergeVideos(fs, runs, env.cwd, files, title, season, selected[0].id, selected[|selected| - 1].id);
    if m.merged.None? {
      job.AddLog("ERROR", "\U{274C} Merge failed", now);
      return m.fs, m.runs;
    }
    var name := LastSegment(m.merged.value);
    job.mergedFile := Some(name);
    job.AddLog("INFO", "\U{2705} Successfully merged into " + name, now);
    if job.config.keepIndividualFiles {
      return m.fs, m.runs;
    }
    job.AddLog("INFO", "Removing individual episode files...", now);
    fs' := RemoveIndividualFiles(job, m.fs, files, now);
    runs' := m.runs;
  }

  /** The `except` block, on the job in place. */
  method Fail(job: DownloadJob, message: string, env: Env)
    modifies job
    ensures job.State() == FailJob(old(job.State()), message, env)
  {
    job.status, job.error, job.endTime := Failed, Some(message), Some(env.now);
    job.AddLog("ERROR", "Job failed: " + message, env.now);
    job.AddLog("ERROR", env.traceback, env.now);
  }

  /** The end of the `try` block, on the job in place. */
  method Complete(job: DownloadJob, now: nat)
    modifies job
    ensures job.State() == CompleteJob(old(job.State()), now)
  {
    job.status, job.progress, job.endTime := Completed, 100, Some(now);
    job.AddLog("INFO", "\U{1F389} Download job completed! Downloaded " + NatToString(job.completedEpisodes)
      + "/" + NatToString(job.totalEpisodes) + " episodes", now);
  }

  /** The fetching phases on the job in place; `ready` tells whether downloading goes ahead. */
  method FetchPhase(job: DownloadJob, env: Env)
    returns (ready: bool, title: string, season: int, selected: seq<Episode>)
    modifies job
    ensures ready ==> Prepare(old(job.State()), env) == Ready(job.State(), title, season, selected)
    ensures !ready ==> Prepare(old(job.State()), env) == Aborted(job.State())
  {
    var now := env.now;
    ghost var st := job.State();
    season, selected := 0, [];
    job.status := FetchingInfo;
    job.AddLog("INFO", "Fetching anime details from " + job.animeUrl, now);
    ghost var st1 := job.State();
    assert st1 == WithLog(st.(status := FetchingInfo), "INFO", "Fetching anime details from " + st.animeUrl, now);
    var details := AnimeDetails(env.remote, job.animeUrl);
    var animeId := details.0;
    title := details.1;
    if animeId.None? || animeId.value == "" {
      Fail(job, "Could not extract anime ID from URL", env);
      return false, title, season, selected;
    }
    ready, season, selected := IdentifiedStage(job, env, animeId.value, title);
  }

  /** The phases after the anime is identified, on the job in place. */
  method IdentifiedStage(job: DownloadJob, env: Env, animeId: string, title: string)
    returns (ready: bool, season: int, selected: seq<Episode>)
    modifies job
    ensures ready ==> Identified(old(job.State()), env, animeId, title) == Ready(job.State(), title, season, selected)
    ensures !ready ==> Identified(old(job.State()), env, animeId, title) == Aborted(job.State())
  {
    var now := env.now;
    ghost var st := job.State();
    job.animeTitle := Some(title);
    job.AddLog("INFO", "Found anime: " + title, now);
    ghost var st1 := job.State();
    assert st1 == WithLog(st.(animeTitle := Some(title)), "INFO", "Found anime: " + title, now);
    season := EffectiveSeason(job.config.seasonNumber, title);
    job.season := Some(season);
    job.AddLog("INFO", "Season: " + IntToString(season), now);
    job.status := FetchingEpisodes;
    assert job.State() == WithLog(st1.(season := Some(season)), "INFO", "Season: " + IntToString(season), now).(status := FetchingEpisodes);
    ready, selected := SelectStage(job, env, animeId, title, season);
  }

  /** The episode-list phase on the job in place. */
  method SelectStage(job: DownloadJob, env: Env, animeId: string, title: string, season: int)
    returns (ready: bool, selected: seq<Episode>)
    modifies job
    ensures ready ==> Select(old(job.State()), env, animeId, title, season) == Ready(job.State(), title, season, selected)
    ensures !ready ==> Select(old(job.State()), env, animeId, title, season) == Aborted(job.State())
  {
    var now := env.now;
    var episodes := GetEpisodeList(env.remote, animeId);
    if episodes == [] {
      Fail(job, "No episodes found", env);
      return false, [];
    }
    job.AddLog("INFO", "Found " + NatToString(|episodes|) + " episodes", now);
    selected := SelectEpisodes(episodes, job.config);
    if selected == [] {
      Fail(job, "No episodes match your selection", env);
      return false, selected;
    }
    job.totalEpisodes := |selected|;
    job.AddLog("INFO", "Will download " + NatToString(|selected|) + " episode(s)", now);
    job.status := Downloading;
    ready := true;
  }

  /** `run_download_job`, updating the job in place. */
  method RunDownloadJob(job: DownloadJob, fs: Fs, runs: seq<ToolRun>, env: Env) returns (fs': Fs, runs': seq<ToolRun>)
    modifies job
    ensures JobRun(job.State(), fs', runs') == RunJob(old(job.State()), fs, runs, env)
  {
    ghost var st := job.State();
    var ready, title, season, selected := FetchPhase(job, env);
    if !ready {
      assert RunJob(st, fs, runs, env) == JobRun(job.State(), fs, runs);
      return fs, runs;
    }
    ghost var st1 := job.State();
    assert RunJob(st, fs, runs, env) == DownloadPhase(st1, fs, runs, env, title, season, selected);
    var dir := Join(env.downloadFolder, title);
    var files, raised;
    fs', runs', files, raised := DownloadEpisodes(job, fs, runs, env, title, season, dir, selected);
    ghost var loop := Loop(job.State(), fs', runs', files, raised);
    assert loop == RunEpisodes(st1, fs, runs, env, title, season, dir, selected);
    if raised.Some? {
      Fail(job, ErrorText(raised.value), env);
      assert DownloadPhase(st1, fs, runs, env, title, season, selected) == JobRun(job.State(), fs', runs');
      return;
    }
    fs', runs' := MergeStage(job, fs', runs', env, title, season, selected, files);
    ghost var m := JobRun(job.State(), fs', runs');
    assert m == MergePhase(loop.st, loop.fs, loop.runs, env, title, season, selected, loop.files);
    Complete(job, env.now);
    assert DownloadPhase(st1, fs, runs, env, title, season, selected) == JobRun(job.State(), fs', runs');
  }

  // ---------------------------------------------------------------------------
  // The job registry

  /** The fields of a `start` request body; `None` is a key the body leaves out. */
  datatype StartRequest = StartRequest(
    animeUrl: Option<string>,
    downloadMode: Option<string>,
    singleEpisode: Option<string>,
    startEpisode: Option<string>,
    endEpisode: Option<string>,
    preferType: Option<string>,
    preferServer: Option<string>,
    downloadMethod: Option<string>,
    maxRetries: Option<int>,
    timeout: Option<int>,
    maxWorkers: Option<int>,
    mergeEpisodes: Option<bool>,
    seasonNumber: Option<int>,
    keepIndividualFiles: Option<bool>)

  /** `dict.get(key, default)`. */
  function Get<T>(o: Option<T>, default: T): (r: T)
    ensures o.Some? ==> r == o.value
    ensures o.None? ==> r == default
  {
    if o.Some? then o.value else default
  }

  /** The configuration `start_download` builds, with its defaults for the missing keys. */
  function ConfigOf(req: StartRequest): JobConfig {
    JobConfig(
      Get(req.downloadMode, "All Episodes"), Get(req.singleEpisode, "1"), Get(req.startEpisode, "1"),
      Get(req.endEpisode, "1"), Get(req.preferType, "Soft Sub"), Get(req.preferServer, "Server 1"),
      Get(req.downloadMethod, "yt-dlp"), Get(req.maxRetries, 7), Get(req.timeout, 300), Get(req.maxWorkers, 15),
      Get(req.mergeEpisodes, false), Get(req.seasonNumber, 0), Get(req.keepIndividualFiles, false))
  }

  /** A request naming only the URL gets the default configuration: every episode, soft
      subtitles from "Server 1", seven attempts with a 300-second timeout and 15 fragment
      workers, no merge, the season detected from the title. */
  lemma DefaultConfig(url: string)
    ensures ConfigOf(StartRequest(Some(url), None, None, None, None, None, None, None, None, None, None, None, None, None))
      == JobConfig("All Episodes", "1", "1", "1", "Soft Sub", "Server 1", "yt-dlp", 7, 300, 15, false, 0, false)
  {
  }

  /** An endpoint's reply: the JSON body of a success, or an HTTP error code and message. */
  datatype Reply<T> = Ok(value: T) | Err(code: int, error: string)

  datatype Started = Started(jobId: int, message: string)

  /** Whether the clear endpoint may drop a job in this status. */
  predicate Finished(s: Status) {
    s == Completed || s == Failed
  }

  predicate Increasing(s: seq<int>) {
    forall a, b :: 0 <= a < b < |s| ==> s[a] < s[b]
  }

  /** `s` without `x`: the dictionary's key order after `del`. */
  function Without(s: seq<int>, x: int): (r: seq<int>)
    ensures forall y :: y in r <==> y in s && y != x
    ensures Increasing(s) ==> Increasing(r)
  {
    if s == [] then []
    else
      var rest := Without(s[1..], x);
      assert Increasing(s) ==> Increasing(s[1..]) by {
        if Increasing(s) {
          forall a, b | 0 <= a < b < |s[1..]| ensures s[1..][a] < s[1..][b] {
            assert s[1..][a] == s[a + 1] && s[1..][b] == s[b + 1];
          }
        }
      }
      if s[0] == x then rest
      else
        var r := [s[0]] + rest;
        assert Increasing(s) ==> Increasing(r) by {
          if Increasing(s) {
            forall a, b | 0 <= a < b < |r| ensures r[a] < r[b] {
              assert r[b] == rest[b - 1] && rest[b - 1] in rest;
              var k :| 0 <= k < |s[1..]| && s[1..][k] == rest[b - 1];
              assert s[k + 1] == r[b];
              if a > 0 {
                assert r[a] == rest[a - 1];
              }
            }
          }
        }
        r
  }

  /** Newest first: `list.sort(key=start_time, reverse=True)` compares this way, and as that
      sort is stable, jobs started at the same time keep their registry order. */
  predicate NewerFirst(a: JobView, b: JobView) {
    a.startTime >= b.startTime
  }

  lemma NewerFirstTotalPreorder()
    ensures TotalPreorder(NewerFirst)
  {
  }

  /** The registry of download jobs: `download_jobs`, a dictionary from id to job kept in
      insertion order (`order`), and `job_counter`. */
  class Registry {
    var jobs: map<int, DownloadJob>
    var order: seq<int>
    var counter: int

    /** The keys are exactly the ids in `order`, in increasing order, all handed out by the counter. */
    ghost predicate Valid()
      reads this
    {
      && (forall id :: id in jobs <==> id in order)
      && (forall k :: 0 <= k < |order| ==> order[k] in jobs)
      && Increasing(order)
      && (forall id :: id in order ==> 1 <= id <= counter)
      && counter >= 0
    }

    constructor()
      ensures Valid() && jobs == map[] && order == [] && counter == 0
    {
      jobs, order, counter := map[], [], 0;
    }

    /** `start_download`: reject a request without a URL; otherwise take the next id from the
        counter and register a new job under it. Starting the worker thread is the caller's. */
    method StartDownload(req: StartRequest, now: nat) returns (r: Reply<Started>, job: DownloadJob?)
      requires Valid()
      modifies this
      ensures Valid()
      ensures r.Err? <==> req.animeUrl.None? || req.animeUrl.value == ""
      ensures r.Err? ==>
        && r == Err(400, "No URL provided") && job == null
        && jobs == old(jobs) && order == old(order) && counter == old(counter)
      ensures r.Ok? ==>
        && counter == old(counter) + 1 && r.value == Started(counter, "Download job started")
        && counter !in old(jobs)
        && job != null && fresh(job) && jobs == old(jobs)[counter := job] && order == old(order) + [counter]
        && job.State() == InitialState(counter, req.animeUrl.value, ConfigOf(req), now)
    {
      if req.animeUrl.None? || req.animeUrl.value == "" {
        return Err(400, "No URL provided"), null;
      }
      forall k | 0 <= k < |order| ensures order[k] <= counter {
        assert order[k] in order;
      }
      counter := counter + 1;
      var jobId := counter;
      job := new DownloadJob(jobId, req.animeUrl.value, ConfigOf(req), now);
      jobs := jobs[jobId := job];
      order := order + [jobId];
      r := Ok(Started(jobId, "Download job started"));
    }

    /** `get_download_status`. */
    function GetStatus(id: int, now: nat): (r: Reply<JobView>)
      reads this, jobs.Values
      ensures r.Err? <==> id !in jobs
      ensures r.Err? ==> r == Err(404, "Job not found")
      ensures r.Ok? ==> r.value == View(jobs[id].State(), now)
    {
      if id in jobs then Ok(jobs[id].ToDict(now)) else Err(404, "Job not found")
    }

    /** The snapshots of the jobs with the given ids, in that order. */
    function Views(ids: seq<int>, now: nat): (r: seq<JobView>)
      reads this, jobs.Values
      requires forall k :: 0 <= k < |ids| ==> ids[k] in jobs
      ensures |r| == |ids| && forall k :: 0 <= k < |ids| ==> r[k] == View(jobs[ids[k]].State(), now)
    {
      if ids == [] then [] else [jobs[ids[0]].ToDict(now)] + Views(ids[1..], now)
    }

    /** `list_downloads`: every job's snapshot, newest first. */
    function ListDownloads(now: nat): (r: seq<JobView>)
      reads this, jobs.Values
      requires Valid()
    {
      SortBy(Views(order, now), NewerFirst)
    }

    /** The list is ordered newest first, holds each registered job's snapshot exactly once,
        and lists jobs started at the same time in the order they were registered. */
    lemma ListDownloadsSpec(now: nat, v: JobView)
      requires Valid()
      ensures SortedBy(ListDownloads(now), NewerFirst)
      ensures multiset(ListDownloads(now)) == multiset(Views(order, now))
      ensures ClassOf(ListDownloads(now), v, NewerFirst) == ClassOf(Views(order, now), v, NewerFirst)
    {
      NewerFirstTotalPreorder();
      SortBySorted(Views(order, now), NewerFirst);
      SortByPermutation(Views(order, now), NewerFirst);
      SortByStable(Views(order, now), v, NewerFirst);
    }

    /** `clear_download_job`: drop a finished job; refuse an active one or an unknown id. */
    method ClearJob(id: int) returns (r: Reply<string>)
      requires Valid()
      modifies this
      ensures Valid() && counter == old(counter)
      ensures id !in old(jobs) ==> r == Err(404, "Job not found") && jobs == old(jobs) && order == old(order)
      ensures id in old(jobs) && !Finished(old(jobs)[id].status) ==>
        r == Err(400, "Cannot clear active job") && jobs == old(jobs) && order == old(order)
      ensures id in old(jobs) && Finished(old(jobs)[id].status) ==>
        r == Ok("Job cleared") && jobs == old(jobs) - {id} && order == Without(old(order), id)
    {
      if id in jobs {
        if Finished(jobs[id].status) {
          jobs := jobs - {id};
          order := Without(order, id);
          return Ok("Job cleared");
        }
        return Err(400, "Cannot clear active job");
      }
      return Err(404, "Job not found");
    }
  }
}
