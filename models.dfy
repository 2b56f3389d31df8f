/**
 * `DownloadJob` (app/models.py): the record of one download job, its bounded log
 * and the snapshot the status API returns.
 *
 * Times are integer microseconds of local wall-clock time, the resolution of
 * Python's `datetime`; the clock is read by the caller and passed in as `now`.
 */
module Models {
  import opened Text
  import opened Seqs

  /** The job's `status` string, one constructor per value the job takes. */
  datatype Status = Initializing | FetchingInfo | FetchingEpisodes | Downloading | Merging | Completed | Failed

  function StatusName(s: Status): string {
    match s
    case Initializing => "initializing"
    case FetchingInfo => "fetching_info"
    case FetchingEpisodes => "fetching_episodes"
    case Downloading => "downloading"
    case Merging => "merging"
    case Completed => "completed"
    case Failed => "failed"
  }

  /** The job configuration `start_download` assembles from the request. */
  datatype JobConfig = JobConfig(
    downloadMode: string,
    singleEpisode: string,
    startEpisode: string,
    endEpisode: string,
    preferType: string,
    preferServer: string,
    downloadMethod: string,
    maxRetries: int,
    timeout: int,
    maxWorkers: int,
    mergeEpisodes: bool,
    seasonNumber: int,
    keepIndividualFiles: bool)

  datatype LogEntry = LogEntry(timestamp: string, level: string, message: string)

  /** How many log entries a job keeps, and how many its snapshot shows. */
  const MaxLogs: nat := 100
  const ShownLogs: nat := 20

  const MicrosPerSecond: nat := 1_000_000

  /** `strftime("%H:%M:%S")` of a wall-clock time. */
  function Clock(now: nat): string {
    var t := (now / MicrosPerSecond) % 86400;
    Pad2(t / 3600) + ":" + Pad2(t / 60 % 60) + ":" + Pad2(t % 60)
  }

  lemma Pad2Width(n: nat)
    requires n < 100
    ensures |Pad2(n)| == 2 && AllDigits(Pad2(n)) && DigitsValue(Pad2(n)) == n
  {
    Pad2Spec(n);
    if n >= 10 {
      assert Pad2(n) == NatToString(n / 10) + [DigitChar(n % 10)];
    }
  }

  /** The time stamp is `HH:MM:SS`: eight characters, the hour, minute and second of the
      day as two-digit numerals. */
  lemma ClockShape(now: nat)
    ensures var c, t := Clock(now), (now / MicrosPerSecond) % 86400;
      && |c| == 8 && c[2] == ':' && c[5] == ':'
      && AllDigits(c[..2]) && DigitsValue(c[..2]) == t / 3600 < 24
      && AllDigits(c[3..5]) && DigitsValue(c[3..5]) == t / 60 % 60
      && AllDigits(c[6..]) && DigitsValue(c[6..]) == t % 60
  {
    var t := (now / MicrosPerSecond) % 86400;
    Pad2Width(t / 3600);
    Pad2Width(t / 60 % 60);
    Pad2Width(t % 60);
    var c := Clock(now);
    assert c[..2] == Pad2(t / 3600);
    assert c[3..5] == Pad2(t / 60 % 60);
    assert c[6..] == Pad2(t % 60);
  }

  /** `add_log`'s list update: append, then keep the last `MaxLogs` entries. */
  function AppendLog(logs: seq<LogEntry>, e: LogEntry): seq<LogEntry> {
    LastN(logs + [e], MaxLogs)
  }

  /** The log grows by one entry until it holds `MaxLogs`; the new entry is last, and the
      entries before it are the newest of the old log. */
  lemma AppendLogSpec(logs: seq<LogEntry>, e: LogEntry)
    ensures var r := AppendLog(logs, e);
      && |r| == (if |logs| < MaxLogs then |logs| + 1 else MaxLogs)
      && r != [] && r[|r| - 1] == e
      && r[..|r| - 1] == logs[|logs| + 1 - |r|..]
  {
    var all, r := logs + [e], AppendLog(logs, e);
    assert r == all[|all| - |r|..];
  }

  /** While the log is short nothing is dropped; once it is full each new entry
      pushes out the oldest. */
  lemma AppendLogWindow(logs: seq<LogEntry>, e: LogEntry)
    requires |logs| <= MaxLogs
    ensures |logs| < MaxLogs ==> AppendLog(logs, e) == logs + [e]
    ensures |logs| == MaxLogs ==> AppendLog(logs, e) == logs[1..] + [e]
  {
    var r := AppendLog(logs, e);
    AppendLogSpec(logs, e);
    assert r == r[..|r| - 1] + [r[|r| - 1]];
  }

  /** Python's `int(x)` of `x / 10**6`, rounding toward zero. */
  function TruncSeconds(micros: int): (s: int)
    ensures micros >= 0 ==> 0 <= s * MicrosPerSecond <= micros < (s + 1) * MicrosPerSecond
    ensures micros < 0 ==> (s - 1) * MicrosPerSecond < micros <= s * MicrosPerSecond <= 0
  {
    if micros >= 0 then micros / MicrosPerSecond else -((-micros) / MicrosPerSecond)
  }

  /** `int(elapsed) if elapsed else None`: no value only for an elapsed time of exactly
      zero; anything shorter than a second otherwise reads as 0. */
  function ElapsedSeconds(micros: int): (r: Option<int>)
    ensures r.None? <==> micros == 0
    ensures r.Some? ==> r.value == TruncSeconds(micros)
  {
    if micros == 0 then None else Some(TruncSeconds(micros))
  }

  /** Everything a job holds, as one value. */
  datatype JobState = JobState(
    jobId: int,
    animeUrl: string,
    config: JobConfig,
    status: Status,
    progress: int,
    currentEpisode: Option<string>,
    totalEpisodes: nat,
    completedEpisodes: nat,
    logs: seq<LogEntry>,
    error: Option<string>,
    downloadedFiles: seq<string>,
    mergedFile: Option<string>,
    startTime: nat,
    endTime: Option<nat>,
    animeTitle: Option<string>,
    season: Option<int>)

  /** The state of a job just created at time `now`. */
  function InitialState(jobId: int, animeUrl: string, config: JobConfig, now: nat): JobState {
    JobState(jobId, animeUrl, config, Initializing, 0, None, 0, 0, [], None, [], None, now, None, None, None)
  }

  /** The state after `add_log(level, message)` at time `now`. */
  function WithLog(st: JobState, level: string, message: string, now: nat): (r: JobState)
    ensures r == st.(logs := r.logs)
    ensures r.logs == AppendLog(st.logs, LogEntry(Clock(now), level, message))
  {
    st.(logs := AppendLog(st.logs, LogEntry(Clock(now), level, message)))
  }

  /** What `to_dict` returns, field for field (times stay numbers). */
  datatype JobView = JobView(
    jobId: int,
    animeUrl: string,
    animeTitle: Option<string>,
    season: Option<int>,
    status: string,
    progress: int,
    currentEpisode: Option<string>,
    totalEpisodes: nat,
    completedEpisodes: nat,
    logs: seq<LogEntry>,
    error: Option<string>,
    downloadedFiles: seq<string>,
    mergedFile: Option<string>,
    elapsedSeconds: Option<int>,
    startTime: nat,
    endTime: Option<nat>)

  /** `to_dict` at time `now`: the last `ShownLogs` log entries, and the time elapsed
      until the job ended, or until now while it runs. */
  function View(st: JobState, now: nat): (v: JobView)
    ensures |v.logs| == if |st.logs| < ShownLogs then |st.logs| else ShownLogs
    ensures st.logs == st.logs[..|st.logs| - |v.logs|] + v.logs
    ensures v.status == StatusName(st.status)
    ensures v.elapsedSeconds.None? <==> (if st.endTime.Some? then st.endTime.value else now) == st.startTime
  {
    var until := if st.endTime.Some? then st.endTime.value else now;
    JobView(st.jobId, st.animeUrl, st.animeTitle, st.season, StatusName(st.status), st.progress,
            st.currentEpisode, st.totalEpisodes, st.completedEpisodes, LastN(st.logs, ShownLogs), st.error,
            st.downloadedFiles, st.mergedFile, ElapsedSeconds(until - st.startTime), st.startTime, st.endTime)
  }

  /** A job: its fields are updated in place by the worker and read by the API. */
  class DownloadJob {
    var jobId: int
    var animeUrl: string
    var config: JobConfig
    var status: Status
    var progress: int
    var currentEpisode: Option<string>
    var totalEpisodes: nat
    var completedEpisodes: nat
    var logs: seq<LogEntry>
    var error: Option<string>
    var downloadedFiles: seq<string>
    var mergedFile: Option<string>
    var startTime: nat
    var endTime: Option<nat>
    var animeTitle: Option<string>
    var season: Option<int>

    function State(): JobState
      reads this
    {
      JobState(jobId, animeUrl, config, status, progress, currentEpisode, totalEpisodes, completedEpisodes,
               logs, error, downloadedFiles, mergedFile, startTime, endTime, animeTitle, season)
    }

    /** `DownloadJob(job_id, anime_url, config)` created at time `now`. */
    constructor(jobId: int, animeUrl: string, config: JobConfig, now: nat)
      ensures State() == InitialState(jobId, animeUrl, config, now)
    {
      this.jobId, this.animeUrl, this.config := jobId, animeUrl, config;
      status, progress, currentEpisode := Initializing, 0, None;
      totalEpisodes, completedEpisodes := 0, 0;
      logs, error, downloadedFiles, mergedFile := [], None, [], None;
      startTime, endTime, animeTitle, season := now, None, None, None;
    }

    /** `add_log`: append a time-stamped entry and keep the last `MaxLogs`. */
    method AddLog(level: string, message: string, now: nat)
      modifies this
      ensures State() == WithLog(old(State()), level, message, now)
    {
      logs := logs + [LogEntry(Clock(now), level, message)];
      if |logs| > MaxLogs {
        logs := logs[|logs| - MaxLogs..];
      }
    }

    /** `to_dict`. */
    function ToDict(now: nat): JobView
      reads this
    {
      View(State(), now)
    }
  }
}
