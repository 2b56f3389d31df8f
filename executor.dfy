/**
 * The executing half of `AnimeDownloader` (app/downloader.py): episode and merge
 * file names, the yt-dlp / ffmpeg control flow, the bounded retry loop and the
 * concatenation merge.
 *
 * The filesystem is a value `Fs`: the set of existing paths, and the paths whose
 * removal is refused. The external tools are a script of `ToolRun`s consumed in
 * launch order; a script that has run out stands for a tool that cannot start.
 */
module Executor {
  import opened Text
  import opened Seqs
  import opened Resolver

  const UserAgent := "Mozilla/5.0 (Windows NT 10.0; Win64; x64) AppleWebKit/537.36"

  // ---------------------------------------------------------------------------
  // File names

  /** `\d+(\.\d+)?` in full: the whole and fraction digits, for the ids `float` reads
      back as a number (the only numeric ids this model admits). */
  function DecimalParts(id: string): (r: Option<(string, string)>)
    ensures r.Some? ==> AllDigits(r.value.0) && r.value.0 != [] && AllDigits(r.value.1)
  {
    if id == [] || !IsDigit(id[0]) then None
    else
      var j := DigitRunEnd(id, 0);
      assert AllDigits(id[..j]);
      if j == |id| then Some((id, ""))
      else if j + 1 < |id| && id[j] == '.' && DigitRunEnd(id, j + 1) == |id| then
        assert AllDigits(id[j + 1..]);
        Some((id[..j], id[j + 1..]))
      else None
  }

  predicate AllZeros(s: string) {
    forall i :: 0 <= i < |s| ==> s[i] == '0'
  }

  /** `f"{int(ep_num):02d}"` for a whole-number id; any other id verbatim. */
  function EpisodeLabel(id: string): string {
    match DecimalParts(id)
    case Some((whole, frac)) => if AllZeros(frac) then Pad2(DigitsValue(whole)) else id
    case None => id
  }

  /** `generate_episode_filename`. */
  function EpisodeFilename(title: string, season: int, id: string): (r: string)
    ensures NoForbidden(r)
  {
    Sanitize(title + " Season " + Pad2(season) + " Episode " + EpisodeLabel(id) + ".mp4")
  }

  /** The merged file's name in `merge_videos`. */
  function MergedFilename(title: string, season: int, firstId: string, lastId: string): (r: string)
    ensures NoForbidden(r)
  {
    Sanitize(title + " Season " + Pad2(season) + " Episodes " + firstId + "-" + lastId + ".mp4")
  }


  /** The name is the sanitised title, the padded season and the sanitised label, in that frame. */
  lemma {:induction false} EpisodeFilenameShape(title: string, season: int, id: string)
    ensures EpisodeFilename(title, season, id) ==
      Sanitize(title) + " Season " + Pad2(season) + " Episode " + Sanitize(EpisodeLabel(id)) + ".mp4"
    ensures EndsWith(EpisodeFilename(title, season, id), ".mp4")
  {
    PadIsClean(season);
    SanitizeFrame(title, " Season ", Pad2(season), " Episode ", EpisodeLabel(id), ".mp4");
  }

  /** Sanitising a name built from a title, two clean separators around a clean part, a label and a clean suffix. */
  lemma {:induction false} SanitizeFrame(title: string, x: string, p: string, y: string, l: string, z: string)
    requires NoForbidden(x) && NoForbidden(p) && NoForbidden(y) && NoForbidden(z)
    ensures Sanitize(title + x + p + y + l + z) == Sanitize(title) + x + p + y + Sanitize(l) + z
  {
    AppendClean(title, x);
    AppendClean(title + x, p);
    AppendClean(title + x + p, y);
    SanitizeConcat(title + x + p + y, l);
    AppendClean(title + x + p + y + l, z);
  }

  lemma AppendClean(a: string, b: string)
    requires NoForbidden(b)
    ensures Sanitize(a + b) == Sanitize(a) + b
  {
    SanitizeKeepsClean(b);
    SanitizeConcat(a, b);
  }

  lemma PadIsClean(n: int)
    ensures NoForbidden(Pad2(n))
  {
    var p := Pad2(n);
    assert NoForbidden(p) by {
      if 0 <= n < 10 {
      } else {
        var d := NatToString(if n < 0 then -n else n);
        assert forall i :: 0 <= i < |d| ==> IsDigit(d[i]);
        forall i | 0 <= i < |p| ensures !Forbidden(p[i]) {
          if n < 0 && i > 0 { assert p[i] == d[i - 1]; }
        }
      }
    }
  }

  /** A whole-number id is written as its value, zero-padded to two digits. */
  lemma {:induction false} WholeIdPadded(d: string)
    requires d != [] && AllDigits(d)
    ensures EpisodeLabel(d) == Pad2(DigitsValue(d))
  {
    DigitRunEndAll(d, 0);
  }

  /** `d.0`, `d.00`, … also count as whole numbers. */
  lemma {:induction false} ZeroFractionPadded(d: string, f: string)
    requires d != [] && AllDigits(d) && f != [] && AllZeros(f)
    ensures EpisodeLabel(d + "." + f) == Pad2(DigitsValue(d))
  {
    var id := d + "." + f;
    assert AllDigits(f);
    DigitRunEndPrefix(d, "." + f);
    assert id == d + ("." + f);
    assert id[..|d|] == d && id[0] == d[0];
    assert id[|d|] == '.';
    ShiftRun(d + ".", f, "", 0);
    assert d + "." + f + "" == id;
    assert id[|d| + 1..] == f;
  }

  /** An id with a non-zero fraction, or a non-numeric id, is kept verbatim. */
  lemma {:induction false} FractionalIdVerbatim(d: string, f: string)
    requires d != [] && AllDigits(d) && AllDigits(f) && !AllZeros(f)
    ensures EpisodeLabel(d + "." + f) == d + "." + f
  {
    var id := d + "." + f;
    DigitRunEndPrefix(d, "." + f);
    assert id == d + ("." + f);
    assert id[..|d|] == d && id[0] == d[0];
    ShiftRun(d + ".", f, "", 0);
    assert d + "." + f + "" == id;
    assert id[|d| + 1..] == f;
  }

  lemma NonNumericIdVerbatim(id: string)
    requires id == [] || !IsDigit(id[0])
    ensures EpisodeLabel(id) == id
  {
  }

  // ---------------------------------------------------------------------------
  // Filesystem and tools

  datatype Fs = Fs(files: set<string>, locked: set<string>)

  datatype OsError = NotFound(path: string) | PermissionDenied(path: string)

  /** What `str()` of the error writes before the file name: `[Errno n] message: `. */
  function ErrorPrefix(e: OsError): string {
    match e
    case NotFound(_) => "[Errno 2] No such file or directory: "
    case PermissionDenied(_) => "[Errno 13] Permission denied: "
  }

  /** `str(e)` of the error `os.remove` raises: the prefix, then the `repr` of the path. */
  function ErrorText(e: OsError): string {
    ErrorPrefix(e) + PyRepr(e.path)
  }

  /** The error text names the path exactly: after the prefix comes a literal denoting it. */
  lemma ErrorTextNamesPath(e: OsError)
    ensures var r := ErrorText(e);
      |ErrorPrefix(e)| <= |r| && r[..|ErrorPrefix(e)|] == ErrorPrefix(e)
      && ReadRepr(r[|ErrorPrefix(e)|..]) == Some(e.path)
  {
    var r := ErrorText(e);
    assert r[|ErrorPrefix(e)|..] == PyRepr(e.path);
    ReprReadsBack(e.path);
  }

  /** A path with nothing `repr` escapes is written between quotes as it is: single quotes,
      or double quotes when it holds a `'` and no `"`, as a path under a title such as
      "Frieren Beyond Journey's End" does. */
  lemma ErrorTextQuotes(e: OsError)
    requires forall i :: 0 <= i < |e.path| ==> ReprVerbatim(e.path[i], ReprQuote(e.path))
    ensures ErrorText(e) == ErrorPrefix(e) + [ReprQuote(e.path)] + e.path + [ReprQuote(e.path)]
    ensures ReprQuote(e.path) == '"' <==> '\'' in e.path && '"' !in e.path
  {
    ReprPlain(e.path);
  }

  /** `os.remove(path)`: fails if the path is missing or its removal is refused. */
  function RemoveFile(fs: Fs, path: string): (r: (Fs, Option<OsError>))
    ensures r.1.None? <==> path in fs.files && path !in fs.locked
    ensures r.1.None? ==> r.0 == fs.(files := fs.files - {path})
    ensures r.1.Some? ==> r.0 == fs
  {
    if path !in fs.files then (fs, Some(NotFound(path)))
    else if path in fs.locked then (fs, Some(PermissionDenied(path)))
    else (fs.(files := fs.files - {path}), None)
  }

  /** `shutil.move(src, dst)` of an existing file within one directory tree. */
  function Move(fs: Fs, src: string, dst: string): (r: Fs)
    ensures dst in r.files && r.locked == fs.locked
  {
    fs.(files := fs.files - {src} + {dst})
  }

  function Created(fs: Fs, path: string, wrote: bool): (r: Fs)
    ensures r.locked == fs.locked
    ensures path in r.files <==> path in fs.files || wrote
  {
    if wrote then fs.(files := fs.files + {path}) else fs
  }

  /** One launch of yt-dlp or ffmpeg: its exit code and whether it wrote its output
      file, or a launch that raised (the executable is missing). */
  datatype ToolRun = Exited(code: int, wrote: bool) | LaunchFailed

  function NextRun(runs: seq<ToolRun>): (r: (ToolRun, seq<ToolRun>))
    ensures runs != [] ==> r == (runs[0], runs[1..])
    ensures runs == [] ==> r == (LaunchFailed, [])
  {
    if runs == [] then (LaunchFailed, []) else (runs[0], runs[1..])
  }

  // ---------------------------------------------------------------------------
  // Commands

  /** The yt-dlp command line of `download_with_ytdlp`. */
  function YtdlpCommand(url: string, output: string, workers: int, retries: int, timeout: int): (cmd: seq<string>)
    ensures |cmd| == 19 && cmd[0] == "yt-dlp" && cmd[1] == url && cmd[2] == "-o" && cmd[3] == output
  {
    ["yt-dlp", url, "-o", output, "--no-warnings", "--no-check-certificate",
     "--concurrent-fragments", IntToString(workers),
     "--retries", IntToString(retries), "--fragment-retries", IntToString(retries),
     "--socket-timeout", IntToString(timeout),
     "--user-agent", UserAgent, "--referer", BaseUrl, "--newline"]
  }

  /** `list.index(x)`: the first position of x, or |s| if absent. */
  function IndexOfElem(s: seq<string>, x: string): (r: nat)
    ensures r <= |s| && (r < |s| ==> s[r] == x) && forall k :: 0 <= k < r ==> s[k] != x
  {
    if s == [] then 0 else if s[0] == x then 0 else 1 + IndexOfElem(s[1..], x)
  }

  /** `cmd_copy[cmd_copy.index("-o") + 1] = temp_video`. */
  function RetargetOutput(cmd: seq<string>, temp: string): (r: seq<string>)
    ensures |r| == |cmd|
  {
    var i := IndexOfElem(cmd, "-o");
    if i + 1 < |cmd| then cmd[i + 1 := temp] else cmd
  }

  /** Retargeting the yt-dlp command changes only its output path (unless the URL is itself "-o"). */
  lemma RetargetYtdlp(url: string, output: string, temp: string, workers: int, retries: int, timeout: int)
    requires url != "-o"
    ensures RetargetOutput(YtdlpCommand(url, output, workers, retries, timeout), temp) ==
      YtdlpCommand(url, temp, workers, retries, timeout)
  {
    var cmd := YtdlpCommand(url, output, workers, retries, timeout);
    var t := YtdlpCommand(url, temp, workers, retries, timeout);
    assert cmd[2..][0] == "-o";
    assert IndexOfElem(cmd[2..], "-o") == 0;
    assert cmd[1..][1..] == cmd[2..] && cmd[1..][0] != "-o";
    assert IndexOfElem(cmd[1..], "-o") == 1;
    assert cmd[0] != "-o";
    assert IndexOfElem(cmd, "-o") == 2;
    assert RetargetOutput(cmd, temp) == cmd[3 := temp];
    assert cmd[..3] == t[..3] && cmd[4..] == t[4..];
  }

  /** A downloaded subtitle file and its language label. */
  datatype SubFile = SubFile(path: string, lang: string)

  /** `["-i", file]` for each subtitle file. */
  function InputArgs(subs: seq<SubFile>): (r: seq<string>)
    ensures |r| == 2 * |subs|
  {
    if subs == [] then [] else InputArgs(subs[..|subs| - 1]) + ["-i", subs[|subs| - 1].path]
  }

  /** The six arguments that map subtitle input `idx` (1-based) and label it. */
  function MapArgsFor(idx: nat, lang: string): (r: seq<string>)
    requires idx >= 1
    ensures |r| == 6
  {
    ["-map", NatToString(idx) + ":0",
     "-metadata:s:s:" + NatToString(idx - 1), "language=" + Lower(SliceTo(lang, 3)),
     "-metadata:s:s:" + NatToString(idx - 1), "title=" + lang]
  }

  function MapArgs(subs: seq<SubFile>): (r: seq<string>)
    ensures |r| == 6 * |subs|
  {
    if subs == [] then [] else MapArgs(subs[..|subs| - 1]) + MapArgsFor(|subs|, subs[|subs| - 1].lang)
  }

  /** The ffmpeg mux command of `download_with_ytdlp`. */
  function MuxCommand(temp: string, subs: seq<SubFile>, output: string): seq<string> {
    ["ffmpeg", "-i", temp] + InputArgs(subs) + ["-map", "0:v", "-map", "0:a"] + MapArgs(subs)
      + ["-c:v", "copy", "-c:a", "copy", "-c:s", "mov_text", "-y", output]
  }

  lemma {:induction false} InputArgsAt(subs: seq<SubFile>, k: nat)
    requires k < |subs|
    ensures InputArgs(subs)[2 * k] == "-i" && InputArgs(subs)[2 * k + 1] == subs[k].path
    decreases |subs|
  {
    if k < |subs| - 1 {
      var init := subs[..|subs| - 1];
      InputArgsAt(init, k);
      assert InputArgs(subs)[2 * k] == InputArgs(init)[2 * k];
      assert InputArgs(subs)[2 * k + 1] == InputArgs(init)[2 * k + 1];
    }
  }

  lemma {:induction false} MapArgsAt(subs: seq<SubFile>, k: nat)
    requires k < |subs|
    ensures MapArgs(subs)[6 * k..6 * k + 6] == MapArgsFor(k + 1, subs[k].lang)
    decreases |subs|
  {
    if k < |subs| - 1 {
      var init := subs[..|subs| - 1];
      MapArgsAt(init, k);
      assert MapArgs(subs)[6 * k..6 * k + 6] == MapArgs(init)[6 * k..6 * k + 6];
    } else {
      assert MapArgs(subs)[6 * k..6 * k + 6] == MapArgsFor(|subs|, subs[k].lang);
    }
  }

  lemma SliceOfSlice<T>(s: seq<T>, a: nat, b: nat, i: nat, j: nat)
    requires a <= b <= |s| && i <= j <= b - a
    ensures s[a..b][i..j] == s[a + i..a + j]
  {
    forall k | 0 <= k < j - i ensures s[a..b][i..j][k] == s[a + i..a + j][k] {
      assert s[a..b][i..j][k] == s[a..b][i + k] == s[a + i + k];
    }
  }

  lemma {:induction false} MuxFrame(temp: string, subs: seq<SubFile>, output: string)
    ensures var cmd, n := MuxCommand(temp, subs, output), |subs|;
      && |cmd| == 15 + 8 * n
      && cmd[..3] == ["ffmpeg", "-i", temp]
      && cmd[3 + 2 * n..7 + 2 * n] == ["-map", "0:v", "-map", "0:a"]
      && cmd[7 + 8 * n..] == ["-c:v", "copy", "-c:a", "copy", "-c:s", "mov_text", "-y", output]
  {
  }

  lemma {:induction false} MuxSections(temp: string, subs: seq<SubFile>, output: string)
    ensures var cmd, n := MuxCommand(temp, subs, output), |subs|;
      && cmd[3..3 + 2 * n] == InputArgs(subs)
      && cmd[7 + 2 * n..7 + 8 * n] == MapArgs(subs)
  {
  }

  lemma {:induction false} MuxInputs(temp: string, subs: seq<SubFile>, output: string)
    ensures var cmd, n := MuxCommand(temp, subs, output), |subs|;
      forall k :: 0 <= k < n ==> cmd[3 + 2 * k] == "-i" && cmd[4 + 2 * k] == subs[k].path
  {
    var cmd, n := MuxCommand(temp, subs, output), |subs|;
    MuxSections(temp, subs, output);
    forall k | 0 <= k < n ensures cmd[3 + 2 * k] == "-i" && cmd[4 + 2 * k] == subs[k].path {
      InputArgsAt(subs, k);
      assert cmd[3 + 2 * k] == cmd[3..3 + 2 * n][2 * k];
      assert cmd[4 + 2 * k] == cmd[3..3 + 2 * n][2 * k + 1];
    }
  }

  lemma {:induction false} MuxMaps(temp: string, subs: seq<SubFile>, output: string)
    ensures var cmd, n := MuxCommand(temp, subs, output), |subs|;
      forall k :: 0 <= k < n ==> cmd[7 + 2 * n + 6 * k..13 + 2 * n + 6 * k] == MapArgsFor(k + 1, subs[k].lang)
  {
    MuxSections(temp, subs, output);
    MapsAll(MuxCommand(temp, subs, output), subs);
  }

  lemma {:induction false} MapsAll(cmd: seq<string>, subs: seq<SubFile>)
    requires var n := |subs|; 7 + 8 * n <= |cmd| && cmd[7 + 2 * n..7 + 8 * n] == MapArgs(subs)
    ensures var n := |subs|;
      forall k :: 0 <= k < n ==> cmd[7 + 2 * n + 6 * k..13 + 2 * n + 6 * k] == MapArgsFor(k + 1, subs[k].lang)
  {
    var n := |subs|;
    forall k | 0 <= k < n ensures cmd[7 + 2 * n + 6 * k..13 + 2 * n + 6 * k] == MapArgsFor(k + 1, subs[k].lang) {
      MapsAt(cmd, subs, k);
    }
  }

  lemma {:induction false} MapsAt(cmd: seq<string>, subs: seq<SubFile>, k: nat)
    requires var n := |subs|; 7 + 8 * n <= |cmd| && cmd[7 + 2 * n..7 + 8 * n] == MapArgs(subs) && k < n
    ensures var n := |subs|; cmd[7 + 2 * n + 6 * k..13 + 2 * n + 6 * k] == MapArgsFor(k + 1, subs[k].lang)
  {
    var n := |subs|;
    var lo, hi := 7 + 2 * n, 7 + 8 * n;
    var maps := cmd[lo..hi];
    MapArgsAt(subs, k);
    assert maps[6 * k..6 * k + 6] == MapArgsFor(k + 1, subs[k].lang);
    SliceOfSlice(cmd, lo, hi, 6 * k, 6 * k + 6);
    assert lo + 6 * k == 7 + 2 * n + 6 * k && lo + (6 * k + 6) == 13 + 2 * n + 6 * k;
  }

  /** The mux command: the video is input 0, subtitle k is input k+1 and stream k, each
      labelled with its language; all streams are copied into the output. */
  lemma MuxCommandLayout(temp: string, subs: seq<SubFile>, output: string)
    ensures var cmd, n := MuxCommand(temp, subs, output), |subs|;
      && |cmd| == 15 + 8 * n
      && cmd[..3] == ["ffmpeg", "-i", temp]
      && (forall k :: 0 <= k < n ==> cmd[3 + 2 * k] == "-i" && cmd[4 + 2 * k] == subs[k].path)
      && cmd[3 + 2 * n..7 + 2 * n] == ["-map", "0:v", "-map", "0:a"]
      && (forall k :: 0 <= k < n ==> cmd[7 + 2 * n + 6 * k..13 + 2 * n + 6 * k] == MapArgsFor(k + 1, subs[k].lang))
      && cmd[7 + 8 * n..] == ["-c:v", "copy", "-c:a", "copy", "-c:s", "mov_text", "-y", output]
  {
    MuxFrame(temp, subs, output);
    MuxInputs(temp, subs, output);
    MuxMaps(temp, subs, output);
  }

  lemma InputArgsSnoc(head: seq<string>, subs: seq<SubFile>, i: nat)
    requires i < |subs|
    ensures head + InputArgs(subs[..i]) + ["-i", subs[i].path] == head + InputArgs(subs[..i + 1])
  {
    var next := subs[..i + 1];
    assert next[..i] == subs[..i] && next[i] == subs[i];
    assert InputArgs(next) == InputArgs(subs[..i]) + ["-i", subs[i].path];
  }

  lemma MapArgsSnoc(head: seq<string>, subs: seq<SubFile>, i: nat)
    requires i < |subs|
    ensures head + MapArgs(subs[..i]) + MapArgsFor(i + 1, subs[i].lang) == head + MapArgs(subs[..i + 1])
  {
    var next := subs[..i + 1];
    assert next[..i] == subs[..i] && next[i] == subs[i];
    assert MapArgs(next) == MapArgs(subs[..i]) + MapArgsFor(i + 1, subs[i].lang);
  }

  /** The command is built with `extend`, one subtitle at a time. */
  method BuildMuxCommand(temp: string, subs: seq<SubFile>, output: string) returns (cmd: seq<string>)
    ensures cmd == MuxCommand(temp, subs, output)
  {
    cmd := ["ffmpeg", "-i", temp];
    for i := 0 to |subs|
      invariant cmd == ["ffmpeg", "-i", temp] + InputArgs(subs[..i])
    {
      InputArgsSnoc(["ffmpeg", "-i", temp], subs, i);
      cmd := cmd + ["-i", subs[i].path];
    }
    assert subs[..|subs|] == subs;
    cmd := cmd + ["-map", "0:v", "-map", "0:a"];
    ghost var prefix := cmd;
    for i := 0 to |subs|
      invariant cmd == prefix + MapArgs(subs[..i])
    {
      MapArgsSnoc(prefix, subs, i);
      cmd := cmd + MapArgsFor(i + 1, subs[i].lang);
    }
    cmd := cmd + ["-c:v", "copy", "-c:a", "copy", "-c:s", "mov_text", "-y", output];
  }

  // ---------------------------------------------------------------------------
  // One yt-dlp attempt

  /** The tool settings `download_with_ytdlp` passes on. */
  datatype ToolConfig = ToolConfig(maxWorkers: int, maxRetries: int, timeout: int)

  function TempPath(output: string): string {
    ReplaceAll(output, ".mp4", "_temp.mp4")
  }

  function SubtitlePath(output: string, idx: nat): string {
    ReplaceAll(output, ".mp4", "_sub" + NatToString(idx) + ".vtt")
  }

  /** The subtitle files that download, in track order; track idx goes to `SubtitlePath(output, idx)`. */
  function FetchedSubtitles(fetchable: set<string>, output: string, subs: seq<Subtitle>): (r: seq<SubFile>)
    ensures |r| <= |subs|
  {
    if subs == [] then []
    else
      var n := |subs| - 1;
      FetchedSubtitles(fetchable, output, subs[..n])
        + (if subs[n].url in fetchable then [SubFile(SubtitlePath(output, n), subs[n].lang)] else [])
  }

  function PathOf(f: SubFile): string { f.path }

  function WithFiles(fs: Fs, paths: seq<string>): (r: Fs)
    ensures r.locked == fs.locked
    ensures r.files == fs.files + set p | p in paths
  {
    fs.(files := fs.files + set p | p in paths)
  }

  /** A `try` block of removals: they run in order and the first failure skips the rest. */
  function RemoveEach(fs: Fs, paths: seq<string>): (r: Fs)
    ensures r.files <= fs.files && r.locked == fs.locked
    decreases |paths|
  {
    if paths == [] then fs
    else
      var (fs1, err) := RemoveFile(fs, paths[0]);
      if err.Some? then fs else RemoveEach(fs1, paths[1..])
  }

  /** The result of one attempt: success, the filesystem and tool script after it, and
      the command lines it launched. */
  datatype Attempt = Attempt(ok: bool, fs: Fs, runs: seq<ToolRun>, launched: seq<seq<string>>)

  /** `download_with_ytdlp`. */
  function YtdlpAttempt(fs: Fs, runs: seq<ToolRun>, fetchable: set<string>, cfg: ToolConfig,
                        url: string, output: string, subs: seq<Subtitle>): (a: Attempt)
    ensures a.fs.locked == fs.locked
    ensures a.ok ==> output in a.fs.files
  {
    var cmd := YtdlpCommand(url, output, cfg.maxWorkers, cfg.maxRetries, cfg.timeout);
    var (run, rest) := NextRun(runs);
    if subs == [] then
      match run
      case LaunchFailed => Attempt(false, fs, rest, [cmd])
      case Exited(code, wrote) =>
        var fs1 := Created(fs, output, wrote);
        Attempt(code == 0 && output in fs1.files, fs1, rest, [cmd])
    else
      var temp := TempPath(output);
      var videoCmd := RetargetOutput(cmd, temp);
      match run
      case LaunchFailed => Attempt(false, fs, rest, [videoCmd])
      case Exited(code, wrote) =>
        var fs1 := Created(fs, temp, wrote);
        if code != 0 || temp !in fs1.files then Attempt(false, fs1, rest, [videoCmd])
        else
          var subFiles := FetchedSubtitles(fetchable, output, subs);
          var fs2 := WithFiles(fs1, Map(subFiles, PathOf));
          if subFiles == [] then Attempt(true, Move(fs2, temp, output), rest, [videoCmd])
          else MuxStep(fs2, rest, temp, subFiles, output, videoCmd)
  }

  /** The mux, the cleanup, and the fallback move of `download_with_ytdlp`. */
  function MuxStep(fs: Fs, runs: seq<ToolRun>, temp: string, subFiles: seq<SubFile>, output: string,
                   videoCmd: seq<string>): (a: Attempt)
    ensures a.fs.locked == fs.locked
    ensures a.ok ==> output in a.fs.files
  {
    var mux := MuxCommand(temp, subFiles, output);
    var (run, rest) := NextRun(runs);
    match run
    case LaunchFailed => Attempt(false, fs, rest, [videoCmd, mux])
    case Exited(code, wrote) =>
      var fs3 := RemoveEach(Created(fs, output, wrote), [temp] + Map(subFiles, PathOf));
      if code == 0 && output in fs3.files then Attempt(true, fs3, rest, [videoCmd, mux])
      else if temp in fs3.files then Attempt(true, Move(fs3, temp, output), rest, [videoCmd, mux])
      else Attempt(output in fs3.files, fs3, rest, [videoCmd, mux])
  }

  /** Without subtitles the attempt is the plain download: it succeeds exactly when
      yt-dlp exits 0 and the output exists. */
  lemma PlainDownload(fs: Fs, runs: seq<ToolRun>, fetchable: set<string>, cfg: ToolConfig,
                      url: string, output: string)
    ensures var a := YtdlpAttempt(fs, runs, fetchable, cfg, url, output, []);
      && a.launched == [YtdlpCommand(url, output, cfg.maxWorkers, cfg.maxRetries, cfg.timeout)]
      && a.runs == NextRun(runs).1
      && (a.ok <==> runs != [] && runs[0].Exited? && runs[0].code == 0 && (runs[0].wrote || output in fs.files))
  {
  }

  lemma RemoveEachFirst(fs: Fs, p: string, rest: seq<string>)
    requires p in fs.files && p !in fs.locked
    ensures p !in RemoveEach(fs, [p] + rest).files
  {
    assert ([p] + rest)[1..] == rest;
  }

  /** The cleanup deletes the temporary video before the fallback looks for it: when
      that deletion succeeds, a mux that fails without writing the output loses the
      video, and the attempt fails. */
  lemma FailedMuxLosesVideo(fs: Fs, runs: seq<ToolRun>, fetchable: set<string>, cfg: ToolConfig,
                            url: string, output: string, subs: seq<Subtitle>, code: int)
    requires Contains(".mp4", output)
    requires subs != [] && |runs| >= 2 && runs[0] == Exited(0, true) && runs[1] == Exited(code, false) && code != 0
    requires FetchedSubtitles(fetchable, output, subs) != []
    requires TempPath(output) !in fs.locked && output !in fs.files
    ensures var a := YtdlpAttempt(fs, runs, fetchable, cfg, url, output, subs);
      !a.ok && TempPath(output) !in a.fs.files && output !in a.fs.files
  {
    var temp := TempPath(output);
    var subFiles := FetchedSubtitles(fetchable, output, subs);
    var fs2 := WithFiles(Created(fs, temp, true), Map(subFiles, PathOf));
    var cmd := YtdlpCommand(url, output, cfg.maxWorkers, cfg.maxRetries, cfg.timeout);
    assert NextRun(runs) == (Exited(0, true), runs[1..]);
    YtdlpReachesMux(fs, runs, fetchable, cfg, url, output, subs);
    FetchedAvoidOutput(fetchable, output, subs);
    TempDiffers(output);
    var paths := Map(subFiles, PathOf);
    forall q | q in paths ensures q != output {
      var k :| 0 <= k < |paths| && paths[k] == q;
      assert subFiles[k] in subFiles;
    }
    assert output !in paths;
    WithFilesMembers(Created(fs, temp, true), paths, output);
    WithFilesMembers(Created(fs, temp, true), paths, temp);
    assert runs[1..][0] == Exited(code, false);
    MuxFailure(fs2, runs[1..], temp, subFiles, output, RetargetOutput(cmd, temp), code);
  }

  lemma WithFilesMembers(fs: Fs, paths: seq<string>, x: string)
    ensures x in WithFiles(fs, paths).files <==> x in fs.files || x in paths
  {
  }

  /** With the video downloaded and at least one subtitle fetched, the attempt continues with the mux. */
  lemma YtdlpReachesMux(fs: Fs, runs: seq<ToolRun>, fetchable: set<string>, cfg: ToolConfig,
                        url: string, output: string, subs: seq<Subtitle>)
    requires subs != [] && runs != [] && runs[0] == Exited(0, true)
    requires FetchedSubtitles(fetchable, output, subs) != []
    ensures var temp, subFiles := TempPath(output), FetchedSubtitles(fetchable, output, subs);
      var cmd := YtdlpCommand(url, output, cfg.maxWorkers, cfg.maxRetries, cfg.timeout);
      YtdlpAttempt(fs, runs, fetchable, cfg, url, output, subs) ==
        MuxStep(WithFiles(Created(fs, temp, true), Map(subFiles, PathOf)), runs[1..], temp, subFiles, output,
                RetargetOutput(cmd, temp))
  {
  }

  lemma MuxFailure(fs: Fs, runs: seq<ToolRun>, temp: string, subFiles: seq<SubFile>, output: string,
                   videoCmd: seq<string>, code: int)
    requires runs != [] && runs[0] == Exited(code, false) && code != 0
    requires temp in fs.files && temp !in fs.locked && output !in fs.files
    ensures var a := MuxStep(fs, runs, temp, subFiles, output, videoCmd);
      !a.ok && temp !in a.fs.files && output !in a.fs.files
  {
    RemoveEachFirst(fs, temp, Map(subFiles, PathOf));
  }

  /** No subtitle path is the output path itself. */
  lemma FetchedAvoidOutput(fetchable: set<string>, output: string, subs: seq<Subtitle>)
    requires Contains(".mp4", output)
    ensures forall f :: f in FetchedSubtitles(fetchable, output, subs) ==> f.path != output
  {
    if subs != [] {
      var n := |subs| - 1;
      FetchedAvoidOutput(fetchable, output, subs[..n]);
      ReplaceAllGrows(output, ".mp4", "_sub" + NatToString(n) + ".vtt");
    }
  }

  lemma TempDiffers(output: string)
    requires Contains(".mp4", output)
    ensures TempPath(output) != output
  {
    ReplaceAllGrows(output, ".mp4", "_temp.mp4");
  }

  lemma FetchedPrefix(fetchable: set<string>, output: string, subs: seq<Subtitle>, i: nat)
    requires i < |subs|
    ensures FetchedSubtitles(fetchable, output, subs[..i + 1]) ==
      FetchedSubtitles(fetchable, output, subs[..i])
      + (if subs[i].url in fetchable then [SubFile(SubtitlePath(output, i), subs[i].lang)] else [])
  {
    assert subs[..i + 1][..i] == subs[..i];
  }

  lemma RemoveEachStep(fs: Fs, paths: seq<string>, i: nat)
    requires i < |paths|
    ensures var (fs1, err) := RemoveFile(fs, paths[i]);
      RemoveEach(fs, paths[i..]) == if err.Some? then fs else RemoveEach(fs1, paths[i + 1..])
  {
    assert paths[i..][1..] == paths[i + 1..];
  }

  /** The subtitle loop: fetch each track in turn and write the ones that download. */
  method FetchSubtitles(fs: Fs, fetchable: set<string>, output: string, subs: seq<Subtitle>)
    returns (fs': Fs, subFiles: seq<SubFile>)
    ensures subFiles == FetchedSubtitles(fetchable, output, subs)
    ensures fs' == WithFiles(fs, Map(subFiles, PathOf))
  {
    fs', subFiles := fs, [];
    for idx := 0 to |subs|
      invariant subFiles == FetchedSubtitles(fetchable, output, subs[..idx])
      invariant fs' == WithFiles(fs, Map(subFiles, PathOf))
    {
      FetchedPrefix(fetchable, output, subs, idx);
      var subPath := SubtitlePath(output, idx);
      if subs[idx].url in fetchable {
        MapAppend(subFiles, SubFile(subPath, subs[idx].lang), PathOf);
        fs' := fs'.(files := fs'.files + {subPath});
        subFiles := subFiles + [SubFile(subPath, subs[idx].lang)];
      }
    }
    assert subs[..|subs|] == subs;
  }

  /** The cleanup `try` block: remove the temporary video, then each subtitle file, and
      stop at the first removal that fails (the video's removal is the loop's first step). */
  method Cleanup(fs: Fs, temp: string, subFiles: seq<SubFile>) returns (fs': Fs)
    ensures fs' == RemoveEach(fs, [temp] + Map(subFiles, PathOf))
  {
    var paths := [temp] + Map(subFiles, PathOf);
    assert paths[0..] == paths;
    fs' := fs;
    var i := 0;
    var failed := false;
    while i < |paths| && !failed
      invariant 0 <= i <= |paths|
      invariant !failed ==> RemoveEach(fs, paths) == RemoveEach(fs', paths[i..])
      invariant failed ==> fs' == RemoveEach(fs, paths)
      decreases |paths| - i, if failed then 0 else 1
    {
      RemoveEachStep(fs', paths, i);
      var (next, e) := RemoveFile(fs', paths[i]);
      if e.Some? {
        failed := true;
      } else {
        fs' := next;
        i := i + 1;
      }
    }
  }

  /** `download_with_ytdlp`, step by step. */
  method DownloadWithYtdlp(fs: Fs, runs: seq<ToolRun>, fetchable: set<string>, cfg: ToolConfig,
                           url: string, output: string, subs: seq<Subtitle>) returns (a: Attempt)
    ensures a == YtdlpAttempt(fs, runs, fetchable, cfg, url, output, subs)
  {
    var cmd := YtdlpCommand(url, output, cfg.maxWorkers, cfg.maxRetries, cfg.timeout);
    var run, rest := NextRun(runs).0, NextRun(runs).1;
    if subs == [] {
      if run.LaunchFailed? {
        return Attempt(false, fs, rest, [cmd]);
      }
      var fs1 := Created(fs, output, run.wrote);
      return Attempt(run.code == 0 && output in fs1.files, fs1, rest, [cmd]);
    }
    var temp := TempPath(output);
    var videoCmd := RetargetOutput(cmd, temp);
    if run.LaunchFailed? {
      return Attempt(false, fs, rest, [videoCmd]);
    }
    var fs1 := Created(fs, temp, run.wrote);
    if run.code != 0 || temp !in fs1.files {
      return Attempt(false, fs1, rest, [videoCmd]);
    }
    var fs2, subFiles := FetchSubtitles(fs1, fetchable, output, subs);
    if subFiles == [] {
      return Attempt(true, Move(fs2, temp, output), rest, [videoCmd]);
    }
    var mux := BuildMuxCommand(temp, subFiles, output);
    var muxRun, rest2 := NextRun(rest).0, NextRun(rest).1;
    if muxRun.LaunchFailed? {
      return Attempt(false, fs2, rest2, [videoCmd, mux]);
    }
    var fs3 := Cleanup(Created(fs2, output, muxRun.wrote), temp, subFiles);
    if muxRun.code == 0 && output in fs3.files {
      return Attempt(true, fs3, rest2, [videoCmd, mux]);
    }
    if temp in fs3.files {
      return Attempt(true, Move(fs3, temp, output), rest2, [videoCmd, mux]);
    }
    return Attempt(output in fs3.files, fs3, rest2, [videoCmd, mux]);
  }

  // ---------------------------------------------------------------------------
  // One episode, with retries

  /** The result of `download_episode`: success, the error `os.remove` raised (which
      escapes to the caller), the filesystem and tool script afterwards, and the result of
      each yt-dlp attempt in order. */
  datatype Outcome = Outcome(ok: bool, raised: Option<OsError>, fs: Fs, runs: seq<ToolRun>, results: seq<bool>)

  /** `if os.path.exists(output_file): os.remove(output_file)`. */
  function ClearOutput(fs: Fs, output: string): (r: (Fs, Option<OsError>))
    ensures r.1.None? ==> output !in r.0.files && r.0.files == fs.files - {output}
    ensures r.1.Some? <==> output in fs.files && output in fs.locked
    ensures r.0.locked == fs.locked
  {
    if output in fs.files then RemoveFile(fs, output) else (fs, None)
  }

  /** The number of attempts `range(1, max_retries + 1)` makes. */
  function AttemptCount(cfg: ToolConfig): nat {
    if cfg.maxRetries > 0 then cfg.maxRetries else 0
  }

  /** One attempt from a filesystem and tool script, everything else fixed. */
  type Try = (Fs, seq<ToolRun>) -> Attempt

  /** `download_with_ytdlp` as the attempt the retry loop makes. */
  function YtdlpTry(fetchable: set<string>, cfg: ToolConfig, url: string, output: string,
                    subs: seq<Subtitle>): Try {
    (f: Fs, r: seq<ToolRun>) => YtdlpAttempt(f, r, fetchable, cfg, url, output, subs)
  }

  /** An attempt never changes which files are locked, and a successful one leaves the
      output on disk. */
  ghost predicate TryKeeps(try: Try, output: string) {
    forall f, r :: try(f, r).fs.locked == f.locked && (try(f, r).ok ==> output in try(f, r).fs.files)
  }

  lemma YtdlpTryKeeps(fetchable: set<string>, cfg: ToolConfig, url: string, output: string, subs: seq<Subtitle>)
    ensures TryKeeps(YtdlpTry(fetchable, cfg, url, output, subs), output)
  {
    var try := YtdlpTry(fetchable, cfg, url, output, subs);
    forall f, r ensures try(f, r).fs.locked == f.locked && (try(f, r).ok ==> output in try(f, r).fs.files) {
      assert try(f, r) == YtdlpAttempt(f, r, fetchable, cfg, url, output, subs);
    }
  }

  /** The remaining iterations of the retry loop, after the attempts recorded in `results`. */
  function Attempts(try: Try, fs: Fs, runs: seq<ToolRun>, output: string, remaining: nat,
                    results: seq<bool>): Outcome
    decreases remaining
  {
    if remaining == 0 then Outcome(false, None, fs, runs, results)
    else
      var (fs1, err) := ClearOutput(fs, output);
      if err.Some? then Outcome(false, err, fs1, runs, results)
      else
        var a := try(fs1, runs);
        if a.ok then Outcome(true, None, a.fs, a.runs, results + [true])
        else Attempts(try, a.fs, a.runs, output, remaining - 1, results + [false])
  }

  /** `download_episode`. */
  function DownloadEpisodeSpec(fs: Fs, runs: seq<ToolRun>, fetchable: set<string>, cfg: ToolConfig,
                               url: string, output: string, subs: seq<Subtitle>): (o: Outcome)
    ensures o.fs.locked == fs.locked
  {
    var try := YtdlpTry(fetchable, cfg, url, output, subs);
    YtdlpTryKeeps(fetchable, cfg, url, output, subs);
    AttemptsLocked(try, fs, runs, output, AttemptCount(cfg), []);
    Attempts(try, fs, runs, output, AttemptCount(cfg), [])
  }

  lemma {:induction false} AttemptsLocked(try: Try, fs: Fs, runs: seq<ToolRun>, output: string, remaining: nat,
                                          results: seq<bool>)
    requires TryKeeps(try, output)
    ensures Attempts(try, fs, runs, output, remaining, results).fs.locked == fs.locked
    decreases remaining
  {
    var (fs1, err) := ClearOutput(fs, output);
    if remaining > 0 && err.None? && !try(fs1, runs).ok {
      var a := try(fs1, runs);
      AttemptsLocked(try, a.fs, a.runs, output, remaining - 1, results + [false]);
    }
  }

  /** The retry loop records at most one result per remaining iteration, after the earlier ones. */
  lemma {:induction false} AttemptsLength(try: Try, fs: Fs, runs: seq<ToolRun>, output: string, remaining: nat,
                                          results: seq<bool>)
    ensures var o := Attempts(try, fs, runs, output, remaining, results);
      && |results| <= |o.results| <= |results| + remaining
      && o.results[..|results|] == results
      && (!o.ok && o.raised.None? ==> |o.results| == |results| + remaining)
    decreases remaining
  {
    var (fs1, err) := ClearOutput(fs, output);
    if remaining > 0 && err.None? && !try(fs1, runs).ok {
      var a := try(fs1, runs);
      AttemptsLength(try, a.fs, a.runs, output, remaining - 1, results + [false]);
      var o := Attempts(try, a.fs, a.runs, output, remaining - 1, results + [false]);
      assert o.results[..|results|] == (o.results[..|results| + 1])[..|results|];
    }
  }

  /** Every attempt before the last one failed. */
  lemma {:induction false} AttemptsFailBeforeLast(try: Try, fs: Fs, runs: seq<ToolRun>, output: string,
                                                  remaining: nat, results: seq<bool>)
    ensures var o := Attempts(try, fs, runs, output, remaining, results);
      forall i :: |results| <= i < |o.results| - 1 ==> !o.results[i]
    decreases remaining
  {
    var (fs1, err) := ClearOutput(fs, output);
    if remaining > 0 && err.None? && !try(fs1, runs).ok {
      var a := try(fs1, runs);
      AttemptsFailBeforeLast(try, a.fs, a.runs, output, remaining - 1, results + [false]);
      AttemptsLength(try, a.fs, a.runs, output, remaining - 1, results + [false]);
      var o := Attempts(try, a.fs, a.runs, output, remaining - 1, results + [false]);
      assert o.results[|results|] == (o.results[..|results| + 1])[|results|];
    }
  }

  /** The loop succeeds exactly when its last attempt succeeded, and success leaves the
      output on disk. */
  lemma {:induction false} AttemptsSuccess(try: Try, fs: Fs, runs: seq<ToolRun>, output: string,
                                           remaining: nat, results: seq<bool>)
    requires TryKeeps(try, output)
    ensures var o := Attempts(try, fs, runs, output, remaining, results);
      && (o.ok <==> |o.results| > |results| && o.results[|o.results| - 1])
      && (o.ok ==> o.raised.None? && output in o.fs.files)
    decreases remaining
  {
    var (fs1, err) := ClearOutput(fs, output);
    if remaining > 0 && err.None? && !try(fs1, runs).ok {
      var a := try(fs1, runs);
      AttemptsSuccess(try, a.fs, a.runs, output, remaining - 1, results + [false]);
      AttemptsLength(try, a.fs, a.runs, output, remaining - 1, results + [false]);
      var o := Attempts(try, a.fs, a.runs, output, remaining - 1, results + [false]);
      assert o.results[|results|] == (o.results[..|results| + 1])[|results|];
    }
  }

  /** `download_episode` makes at most `max_retries` attempts and reports success exactly
      when its last attempt succeeded; a failure that raised nothing used up every attempt. */
  lemma DownloadEpisodeRetries(fs: Fs, runs: seq<ToolRun>, fetchable: set<string>, cfg: ToolConfig,
                               url: string, output: string, subs: seq<Subtitle>)
    ensures var o := DownloadEpisodeSpec(fs, runs, fetchable, cfg, url, output, subs);
      && |o.results| <= AttemptCount(cfg)
      && (forall i :: 0 <= i < |o.results| - 1 ==> !o.results[i])
      && (o.ok <==> o.results != [] && o.results[|o.results| - 1])
      && (o.ok ==> o.raised.None? && output in o.fs.files)
      && (!o.ok && o.raised.None? ==> |o.results| == AttemptCount(cfg))
  {
    var try := YtdlpTry(fetchable, cfg, url, output, subs);
    YtdlpTryKeeps(fetchable, cfg, url, output, subs);
    var o := Attempts(try, fs, runs, output, AttemptCount(cfg), []);
    assert DownloadEpisodeSpec(fs, runs, fetchable, cfg, url, output, subs) == o;
    AttemptsLength(try, fs, runs, output, AttemptCount(cfg), []);
    AttemptsFailBeforeLast(try, fs, runs, output, AttemptCount(cfg), []);
    AttemptsSuccess(try, fs, runs, output, AttemptCount(cfg), []);
    assert o.results != [] <==> |o.results| > 0;
  }

  lemma {:induction false} AttemptsRaise(try: Try, fs: Fs, runs: seq<ToolRun>, output: string,
                                         remaining: nat, results: seq<bool>)
    requires TryKeeps(try, output)
    ensures var o := Attempts(try, fs, runs, output, remaining, results);
      && (output !in fs.locked ==> o.raised.None?)
      && (o.raised.Some? ==> !o.ok && o.raised == Some(PermissionDenied(output)))
    decreases remaining
  {
    var (fs1, err) := ClearOutput(fs, output);
    if remaining > 0 && err.None? && !try(fs1, runs).ok {
      var a := try(fs1, runs);
      AttemptsRaise(try, a.fs, a.runs, output, remaining - 1, results + [false]);
    }
  }

  /** The only error that escapes is the removal of a stale output file that cannot be
      deleted; with the output not locked, `download_episode` never raises. */
  lemma DownloadEpisodeRaise(fs: Fs, runs: seq<ToolRun>, fetchable: set<string>, cfg: ToolConfig,
                             url: string, output: string, subs: seq<Subtitle>)
    ensures var o := DownloadEpisodeSpec(fs, runs, fetchable, cfg, url, output, subs);
      && (output !in fs.locked ==> o.raised.None?)
      && (o.raised.Some? ==> !o.ok && o.raised == Some(PermissionDenied(output)))
  {
    YtdlpTryKeeps(fetchable, cfg, url, output, subs);
    AttemptsRaise(YtdlpTry(fetchable, cfg, url, output, subs), fs, runs, output, AttemptCount(cfg), []);
  }

  /** Each attempt starts from a filesystem without the output file: two attempts that
      agree whenever the output is absent give the same retry loop. */
  lemma {:induction false} AttemptsStartWithoutOutput(try1: Try, try2: Try, fs: Fs, runs: seq<ToolRun>, output: string,
                                                      remaining: nat, results: seq<bool>)
    requires forall f: Fs, r: seq<ToolRun> :: output !in f.files ==> try1(f, r) == try2(f, r)
    ensures Attempts(try1, fs, runs, output, remaining, results) == Attempts(try2, fs, runs, output, remaining, results)
    decreases remaining
  {
    var (fs1, err) := ClearOutput(fs, output);
    if remaining > 0 && err.None? {
      assert try1(fs1, runs) == try2(fs1, runs);
      var a := try1(fs1, runs);
      if !a.ok {
        AttemptsStartWithoutOutput(try1, try2, a.fs, a.runs, output, remaining - 1, results + [false]);
      }
    }
  }

  /** The retry loop sees the filesystem only as its first deletion of the output leaves it. */
  lemma AttemptsAfterClear(try: Try, fs1: Fs, fs2: Fs, runs: seq<ToolRun>, output: string, remaining: nat,
                           results: seq<bool>)
    requires remaining > 0 && ClearOutput(fs1, output) == ClearOutput(fs2, output)
    ensures Attempts(try, fs1, runs, output, remaining, results) == Attempts(try, fs2, runs, output, remaining, results)
  {
  }

  /** A stale output file that can be deleted makes no difference once an attempt is made:
      `download_episode` deletes it before the first attempt. */
  lemma DownloadEpisodeIgnoresStale(fs: Fs, runs: seq<ToolRun>, fetchable: set<string>, cfg: ToolConfig,
                                    url: string, output: string, subs: seq<Subtitle>)
    requires output !in fs.locked && cfg.maxRetries > 0
    ensures DownloadEpisodeSpec(fs, runs, fetchable, cfg, url, output, subs) ==
      DownloadEpisodeSpec(fs.(files := fs.files - {output}), runs, fetchable, cfg, url, output, subs)
  {
    var clean := fs.(files := fs.files - {output});
    assert ClearOutput(fs, output) == (clean, None);
    assert ClearOutput(clean, output) == (clean, None);
    AttemptsAfterClear(YtdlpTry(fetchable, cfg, url, output, subs), fs, clean, runs, output, AttemptCount(cfg), []);
  }

  /** With no attempts configured (`max_retries <= 0`) the download fails at once and
      touches nothing. */
  lemma NoAttempts(fs: Fs, runs: seq<ToolRun>, fetchable: set<string>, cfg: ToolConfig,
                   url: string, output: string, subs: seq<Subtitle>)
    requires cfg.maxRetries <= 0
    ensures DownloadEpisodeSpec(fs, runs, fetchable, cfg, url, output, subs) == Outcome(false, None, fs, runs, [])
  {
  }

  /** `download_episode`, as the loop it is. */
  method DownloadEpisode(fs: Fs, runs: seq<ToolRun>, fetchable: set<string>, cfg: ToolConfig,
                         url: string, output: string, subs: seq<Subtitle>) returns (o: Outcome)
    ensures o == DownloadEpisodeSpec(fs, runs, fetchable, cfg, url, output, subs)
  {
    var n := AttemptCount(cfg);
    var cur, script, results := fs, runs, [];
    var attempt := 1;
    while attempt <= n
      invariant 1 <= attempt <= n + 1
      invariant DownloadEpisodeSpec(fs, runs, fetchable, cfg, url, output, subs) ==
        Attempts(YtdlpTry(fetchable, cfg, url, output, subs), cur, script, output, n - (attempt - 1), results)
    {
      var (cleared, err) := ClearOutput(cur, output);
      if err.Some? {
        return Outcome(false, err, cleared, script, results);
      }
      var a := DownloadWithYtdlp(cleared, script, fetchable, cfg, url, output, subs);
      assert YtdlpTry(fetchable, cfg, url, output, subs)(cleared, script) == a;
      if a.ok {
        return Outcome(true, None, a.fs, a.runs, results + [true]);
      }
      cur, script, results := a.fs, a.runs, results + [false];
      attempt := attempt + 1;
    }
    return Outcome(false, None, cur, script, results);
  }

  // ---------------------------------------------------------------------------
  // The concatenation manifest

  /** The separators of ffmpeg's concat script syntax. */
  predicate ConcatSpace(c: char) {
    c == ' ' || c == '\t' || c == '\r' || c == '\n'
  }

  function SkipSpaces(s: string): (r: string)
    ensures |r| <= |s| && r == s[|s| - |r|..]
    ensures r == [] || !ConcatSpace(r[0])
  {
    if s != [] && ConcatSpace(s[0]) then SkipSpaces(s[1..]) else s
  }

  /** The directive keyword at the start of a line: the characters up to the first separator. */
  function Word(s: string): (r: string)
    ensures |r| <= |s| && r == s[..|r|]
  {
    if s == [] || ConcatSpace(s[0]) then [] else [s[0]] + Word(s[1..])
  }

  /** Drops trailing separators that lie at or after position `end` of the token. */
  function TrimTail(out: string, end: nat): (r: string)
    ensures |r| <= |out| && r == out[..|r|]
    decreases |out|
  {
    if |out| > end && ConcatSpace(out[|out| - 1]) then TrimTail(out[..|out| - 1], end) else out
  }

  /** ffmpeg's token reader (`av_get_token` with the separators as terminators), one
      character at a time: inside single quotes every character other than `'` is
      literal; outside them a backslash escapes the next character, `'` opens a quoted
      run and a separator ends the token. `end` marks the last character that came from
      a quoted run or an escape, after which trailing separators are dropped. */
  function Token(p: string, quoted: bool, out: string, end: nat): (r: string)
    decreases |p|
  {
    if p == [] then TrimTail(out, end)
    else if quoted then
      if p[0] == '\'' then Token(p[1..], false, out, |out|) else Token(p[1..], true, out + [p[0]], end)
    else if ConcatSpace(p[0]) then TrimTail(out, end)
    else if p[0] == '\\' && |p| > 1 then Token(p[2..], false, out + [p[1]], |out| + 1)
    else if p[0] == '\'' then Token(p[1..], true, out, end)
    else Token(p[1..], false, out + [p[0]], end)
  }

  /** The path a line of a concat script names: the operand of its `file` directive
      (what follows the operand on the line is not modelled). */
  function FileOperand(line: string): (r: Option<string>)
    ensures r.Some? ==> Word(SkipSpaces(line)) == "file"
  {
    var s := SkipSpaces(line);
    var kw := Word(s);
    if kw == "file" then Some(Token(SkipSpaces(s[|kw|..]), false, [], 0)) else None
  }

  /** The line `merge_videos` writes for each input: `file '<path>'`, with the path as is. */
  function ManifestLineAsWritten(path: string): string {
    "file '" + path + "'\n"
  }

  /** The path with each `'` written as `'\''`: close the quoted run, an escaped quote,
      reopen the run. */
  function EscapeQuotes(p: string): (r: string)
    ensures |r| >= |p|
  {
    if p == [] then [] else (if p[0] == '\'' then "'\\''" else [p[0]]) + EscapeQuotes(p[1..])
  }

  /** The manifest line with the path quoted so that any path reads back unchanged. */
  function ManifestLine(path: string): string {
    "file '" + EscapeQuotes(path) + "'\n"
  }

  /** The characters at which ffmpeg's line reader ends a script line. */
  predicate LineBreak(c: char) { c == '\n' || c == '\r' || c == '\0' }

  predicate NoLineBreak(s: string) {
    forall i :: 0 <= i < |s| ==> !LineBreak(s[i])
  }

  /** The script line ffmpeg reads from the start of the text: everything before the first
      line break. */
  function FirstLine(s: string): (r: string)
    ensures |r| <= |s| && r == s[..|r|] && NoLineBreak(r)
    ensures |r| < |s| ==> LineBreak(s[|r|])
  {
    if s == [] || LineBreak(s[0]) then [] else [s[0]] + FirstLine(s[1..])
  }

  lemma {:induction false} FirstLineOfLine(x: string)
    requires NoLineBreak(x)
    ensures FirstLine(x + "\n") == x
  {
    if x != [] {
      assert (x + "\n")[1..] == x[1..] + "\n";
      FirstLineOfLine(x[1..]);
    }
  }

  lemma {:induction false} EscapeKeepsLineBreaks(p: string)
    requires NoLineBreak(p)
    ensures NoLineBreak(EscapeQuotes(p))
  {
    if p != [] {
      EscapeKeepsLineBreaks(p[1..]);
      var h := if p[0] == '\'' then "'\\''" else [p[0]];
      assert EscapeQuotes(p) == h + EscapeQuotes(p[1..]);
    }
  }

  lemma WordCons(c: char, t: string)
    requires !ConcatSpace(c)
    ensures Word([c] + t) == [c] + Word(t)
  {
    assert ([c] + t)[1..] == t;
  }

  lemma FileKeyword(x: string)
    ensures Word("file '" + x) == "file"
  {
    assert Word(" '" + x) == [];
    WordCons('e', " '" + x);
    assert "e" + (" '" + x) == "e '" + x;
    WordCons('l', "e '" + x);
    assert "l" + ("e '" + x) == "le '" + x;
    WordCons('i', "le '" + x);
    assert "i" + ("le '" + x) == "ile '" + x;
    WordCons('f', "ile '" + x);
    assert "f" + ("ile '" + x) == "file '" + x;
  }

  lemma FileDirective(x: string)
    ensures FileOperand("file '" + x) == Some(Token(x, true, [], 0))
  {
    var s, q := "file '" + x, "'" + x;
    assert s[0] == 'f' && !ConcatSpace(s[0]);
    assert SkipSpaces(s) == s;
    FileKeyword(x);
    assert s[4..] == [' '] + q;
    assert q[0] == '\'' && !ConcatSpace(q[0]) && q[1..] == x;
    assert SkipSpaces(q) == q;
    assert SkipSpaces([' '] + q) == SkipSpaces(q) by {
      assert ([' '] + q)[1..] == q;
    }
    assert Token(q, false, [], 0) == Token(x, true, [], 0);
  }

  lemma {:induction false} EscapedRun(p: string, out: string, end: nat, rest: string)
    ensures Token(EscapeQuotes(p) + "'" + rest, true, out, end) == Token(rest, false, out + p, |out| + |p|)
    decreases |p|
  {
    if p == [] {
      assert EscapeQuotes(p) + "'" + rest == "'" + rest;
      assert out + p == out;
      ClosingQuoteStep(rest, out, end);
    } else {
      var c, tail := p[0], p[1..];
      var t := EscapeQuotes(tail) + "'" + rest;
      var out1 := out + [c];
      assert out1 + tail == out + p && |out1| + |tail| == |out| + |p|;
      EscapeHead(p, rest);
      if c == '\'' {
        assert EscapeQuotes(p) + "'" + rest == "'\\''" + t;
        QuoteEscapeStep(t, out, end);
        assert out1 == out + ['\''];
        EscapedRun(tail, out1, |out| + 1, rest);
      } else {
        assert EscapeQuotes(p) + "'" + rest == [c] + t;
        QuotedLiteralStep(c, t, out, end);
        EscapedRun(tail, out1, end, rest);
      }
    }
  }

  lemma EscapeHead(p: string, rest: string)
    requires p != []
    ensures EscapeQuotes(p) + "'" + rest ==
      (if p[0] == '\'' then "'\\''" else [p[0]]) + (EscapeQuotes(p[1..]) + "'" + rest)
  {
  }

  /** The closing quote ends the quoted run, after which nothing trailing is dropped. */
  lemma ClosingQuoteStep(rest: string, out: string, end: nat)
    ensures Token("'" + rest, true, out, end) == Token(rest, false, out, |out|)
  {
    assert ("'" + rest)[0] == '\'' && ("'" + rest)[1..] == rest;
  }

  /** Inside quotes, the escape `'\''` closes the run, adds a literal quote and reopens it. */
  lemma QuoteEscapeStep(t: string, out: string, end: nat)
    ensures Token("'\\''" + t, true, out, end) == Token(t, true, out + ['\''], |out| + 1)
  {
    var q := "'\\''" + t;
    assert q[0] == '\'' && q[1..] == "\\''" + t;
    assert q[1..][0] == '\\' && q[1..][1] == '\'' && q[1..][2..] == "'" + t;
    assert ("'" + t)[0] == '\'' && ("'" + t)[1..] == t;
    assert Token("'" + t, false, out + ['\''], |out| + 1) == Token(t, true, out + ['\''], |out| + 1);
    assert Token(q[1..], false, out, |out|) == Token("'" + t, false, out + ['\''], |out| + 1);
    assert Token(q, true, out, end) == Token(q[1..], false, out, |out|);
  }

  /** Inside quotes, any character but a quote is copied. */
  lemma QuotedLiteralStep(c: char, t: string, out: string, end: nat)
    requires c != '\''
    ensures Token([c] + t, true, out, end) == Token(t, true, out + [c], end)
  {
    assert ([c] + t)[0] == c && ([c] + t)[1..] == t;
  }

  /** Every path without a line break, whatever other characters it holds, reads back from
      its escaped manifest line. */
  lemma ManifestLineRoundTrip(path: string)
    requires NoLineBreak(path)
    ensures FileOperand(FirstLine(ManifestLine(path))) == Some(path)
  {
    var x := EscapeQuotes(path) + "'";
    EscapedFirstLine(path);
    FileDirective(x);
    EscapedRun(path, [], 0, []);
    assert x == EscapeQuotes(path) + "'" + [];
    assert [] + path == path;
    assert Token(x, true, [], 0) == Token([], false, path, |path|);
    assert Token([], false, path, |path|) == path;
  }

  lemma EscapedFirstLine(path: string)
    requires NoLineBreak(path)
    ensures FirstLine(ManifestLine(path)) == "file '" + (EscapeQuotes(path) + "'")
  {
    var x := "file '" + (EscapeQuotes(path) + "'");
    assert ManifestLine(path) == x + "\n";
    EscapeKeepsLineBreaks(path);
    assert NoLineBreak(x);
    FirstLineOfLine(x);
  }

  lemma {:induction false} EscapeNoQuote(p: string)
    requires '\'' !in p
    ensures EscapeQuotes(p) == p
  {
    if p != [] {
      assert '\'' !in p[1..];
      EscapeNoQuote(p[1..]);
    }
  }

  /** The line as written reads back only while the path holds no `'` and no line break. */
  lemma AsWrittenWithoutQuote(path: string)
    requires '\'' !in path && NoLineBreak(path)
    ensures FileOperand(FirstLine(ManifestLineAsWritten(path))) == Some(path)
  {
    EscapeNoQuote(path);
    ManifestLineRoundTrip(path);
  }

  /** A path with a `'` in it (a title such as "Frieren: Beyond Journey's End" gives one)
      names a different file in the line as written: `file 'a'b'` reads as `ab`. */
  lemma AsWrittenLosesQuote(a: char, b: char)
    requires a != '\'' && !LineBreak(a) && b != '\'' && b != '\\' && !ConcatSpace(b) && !LineBreak(b)
    ensures FileOperand(FirstLine(ManifestLineAsWritten([a, '\'', b]))) == Some([a, b])
  {
    var x := [a, '\'', b, '\''];
    var line := ManifestLineAsWritten([a, '\'', b]);
    assert line == ("file '" + x) + "\n";
    assert NoLineBreak("file '" + x);
    FirstLineOfLine("file '" + x);
    FileDirective(x);
    QuoteInRun(a, b);
  }

  lemma QuoteInRun(a: char, b: char)
    requires a != '\'' && b != '\'' && b != '\\' && !ConcatSpace(b)
    ensures Token([a, '\'', b, '\''], true, [], 0) == [a, b]
  {
    var x := [a, '\'', b, '\''];
    assert x[1..] == ['\'', b, '\''] && x[1..][1..] == [b, '\''] && x[1..][1..][1..] == ['\''];
    assert [] + [a] == [a] && [a] + [b] == [a, b];
    assert Token(x, true, [], 0) == Token(['\'', b, '\''], true, [a], 0);
    assert Token(['\'', b, '\''], true, [a], 0) == Token([b, '\''], false, [a], 1);
    assert Token([b, '\''], false, [a], 1) == Token(['\''], false, [a, b], 1);
    assert Token(['\''], false, [a, b], 1) == Token([], true, [a, b], 1);
  }

  // ---------------------------------------------------------------------------
  // Merging

  const ManifestName := "filelist_merge.txt"

  /** The result of `merge_videos`: the merged path on success, the filesystem and tool
      script afterwards, the manifest lines written and the commands launched. */
  datatype MergeOutcome = MergeOutcome(merged: Option<string>, fs: Fs, runs: seq<ToolRun>,
                                       manifest: seq<string>, launched: seq<seq<string>>)

  function MergeCommand(listFile: string, mergedPath: string): (cmd: seq<string>)
    ensures |cmd| == 17 && cmd[0] == "ffmpeg" && cmd[6] == listFile && cmd[16] == mergedPath
  {
    ["ffmpeg", "-f", "concat", "-safe", "0", "-i", listFile,
     "-c:v", "copy", "-c:a", "copy", "-c:s", "copy", "-y", "-loglevel", "info", mergedPath]
  }

  function MergedPath(fileList: seq<string>, title: string, season: int, firstId: string, lastId: string): string
    requires fileList != []
  {
    Join(Dirname(fileList[0]), MergedFilename(title, season, firstId, lastId))
  }

  function ManifestPath(fileList: seq<string>): string
    requires fileList != []
  {
    Join(Dirname(fileList[0]), ManifestName)
  }

  /** The inputs that exist, in order. */
  function ExistingFiles(fs: Fs, fileList: seq<string>): (r: seq<string>)
    ensures |r| <= |fileList|
  {
    Filter(fileList, f => f in fs.files)
  }

  /** The manifest `merge_videos` writes: one line per input, `file '<absolute path>'`,
      the path unescaped. */
  function Manifest(cwd: string, files: seq<string>): (r: seq<string>)
    ensures |r| == |files|
    ensures forall i :: 0 <= i < |files| ==> r[i] == ManifestLineAsWritten(Abspath(cwd, files[i]))
  {
    Map(files, f => ManifestLineAsWritten(Abspath(cwd, f)))
  }

  /** The manifest with each path escaped, as the merge evidently intends. */
  function ManifestFixed(cwd: string, files: seq<string>): (r: seq<string>)
    ensures |r| == |files|
    ensures forall i :: 0 <= i < |files| ==> r[i] == ManifestLine(Abspath(cwd, files[i]))
  {
    Map(files, f => ManifestLine(Abspath(cwd, f)))
  }

  /** Every line of the escaped manifest reads back as its input's absolute path when the
      path holds no line break, whatever other characters it holds (`LineBreakCutsPath`
      shows that a line break ends the path early). */
  lemma ManifestFixedReadsBack(cwd: string, files: seq<string>)
    ensures forall i :: 0 <= i < |files| && NoLineBreak(Abspath(cwd, files[i])) ==>
      FileOperand(FirstLine(ManifestFixed(cwd, files)[i])) == Some(Abspath(cwd, files[i]))
  {
    forall i | 0 <= i < |files| && NoLineBreak(Abspath(cwd, files[i]))
      ensures FileOperand(FirstLine(ManifestFixed(cwd, files)[i])) == Some(Abspath(cwd, files[i]))
    {
      ManifestLineRoundTrip(Abspath(cwd, files[i]));
    }
  }

  /** A line break in a path ends ffmpeg's script line inside the quoted run, escaped or
      not: `file 'a<break>b'` names `a`. */
  lemma LineBreakCutsPath(a: char, c: char, b: char)
    requires a != '\'' && !ConcatSpace(a) && !LineBreak(a) && LineBreak(c)
    ensures FileOperand(FirstLine(ManifestLine([a, c, b]))) == Some([a])
    ensures FileOperand(FirstLine(ManifestLineAsWritten([a, c, b]))) == Some([a])
  {
    BrokenLines(a, c, b);
    CutAfter(a, c, EscapeQuotes([b]) + "'\n");
    CutAfter(a, c, [b] + "'\n");
  }

  lemma BrokenLines(a: char, c: char, b: char)
    requires a != '\'' && LineBreak(c)
    ensures ManifestLine([a, c, b]) == ("file '" + [a]) + ([c] + (EscapeQuotes([b]) + "'\n"))
    ensures ManifestLineAsWritten([a, c, b]) == ("file '" + [a]) + ([c] + ([b] + "'\n"))
  {
    assert EscapeQuotes([c, b]) == [c] + EscapeQuotes([b]) by {
      assert [c, b][1..] == [b];
    }
    assert EscapeQuotes([a, c, b]) == [a, c] + EscapeQuotes([b]) by {
      assert [a, c, b][1..] == [c, b];
    }
  }

  lemma CutAfter(a: char, c: char, rest: string)
    requires a != '\'' && !ConcatSpace(a) && !LineBreak(a) && LineBreak(c)
    ensures FileOperand(FirstLine(("file '" + [a]) + ([c] + rest))) == Some([a])
  {
    FirstLineBefore("file '" + [a], c, rest);
    UnclosedOperand(a);
  }

  /** A quoted run the line ends before closing still yields its characters. */
  lemma UnclosedOperand(a: char)
    requires a != '\'' && !ConcatSpace(a)
    ensures FileOperand("file '" + [a]) == Some([a])
  {
    FileDirective([a]);
    assert Token([a], true, [], 0) == Token([], true, [a], 0);
    assert TrimTail([a], 0) == [a];
  }

  lemma {:induction false} FirstLineBefore(x: string, c: char, rest: string)
    requires NoLineBreak(x) && LineBreak(c)
    ensures FirstLine(x + ([c] + rest)) == x
  {
    if x == [] {
      assert x + ([c] + rest) == [c] + rest;
    } else {
      assert (x + ([c] + rest))[1..] == x[1..] + ([c] + rest);
      FirstLineBefore(x[1..], c, rest);
    }
  }

  /** The two manifests are the same file when no input path holds a `'`. */
  lemma ManifestFixedAgrees(cwd: string, files: seq<string>)
    requires forall i :: 0 <= i < |files| ==> '\'' !in Abspath(cwd, files[i])
    ensures ManifestFixed(cwd, files) == Manifest(cwd, files)
  {
    forall i | 0 <= i < |files| ensures ManifestFixed(cwd, files)[i] == Manifest(cwd, files)[i] {
      EscapeNoQuote(Abspath(cwd, files[i]));
    }
  }

  /** Removes the manifest if it exists; a failure to remove it is ignored. */
  function DiscardManifest(fs: Fs, listFile: string): (r: Fs)
    ensures r.locked == fs.locked
    ensures r.files == if listFile in fs.locked then fs.files else fs.files - {listFile}
  {
    if listFile in fs.files then RemoveFile(fs, listFile).0 else fs
  }

  /** The part of `merge_videos` after the checks: write the manifest, run ffmpeg, and
      discard the manifest in the `finally` block. */
  function MergeRun(fs: Fs, runs: seq<ToolRun>, cwd: string, valid: seq<string>, mergedPath: string,
                    listFile: string): (o: MergeOutcome)
    ensures o.fs.locked == fs.locked
  {
    var manifest := Manifest(cwd, valid);
    var fs1 := fs.(files := fs.files + {listFile});
    var cmd := MergeCommand(listFile, mergedPath);
    var (run, rest) := NextRun(runs);
    match run
    case LaunchFailed => MergeOutcome(None, DiscardManifest(fs1, listFile), rest, manifest, [cmd])
    case Exited(code, wrote) =>
      var fs2 := Created(fs1, mergedPath, wrote);
      var merged := if code == 0 && mergedPath in fs2.files then Some(mergedPath) else None;
      MergeOutcome(merged, DiscardManifest(fs2, listFile), rest, manifest, [cmd])
  }

  /** `merge_videos`. */
  function MergeSpec(fs: Fs, runs: seq<ToolRun>, cwd: string, fileList: seq<string>, title: string,
                     season: int, firstId: string, lastId: string): (o: MergeOutcome)
    ensures o.fs.locked == fs.locked
  {
    if fileList == [] then MergeOutcome(None, fs, runs, [], [])
    else
      var valid := ExistingFiles(fs, fileList);
      if |valid| != |fileList| then MergeOutcome(None, fs, runs, [], [])
      else MergeRun(fs, runs, cwd, valid, MergedPath(fileList, title, season, firstId, lastId), ManifestPath(fileList))
  }

  /** Once the checks pass, the merge launches ffmpeg once over the manifest and succeeds
      exactly when ffmpeg exits 0 with the merged file on disk. */
  lemma MergeRunResult(fs: Fs, runs: seq<ToolRun>, cwd: string, valid: seq<string>, mergedPath: string,
                       listFile: string)
    ensures var o := MergeRun(fs, runs, cwd, valid, mergedPath, listFile);
      && o.launched == [MergeCommand(listFile, mergedPath)]
      && o.manifest == Manifest(cwd, valid)
      && (o.merged.Some? <==> runs != [] && runs[0].Exited? && runs[0].code == 0 && (runs[0].wrote || mergedPath in fs.files || mergedPath == listFile))
      && (o.merged.Some? ==> o.merged == Some(mergedPath))
  {
    var fs1 := fs.(files := fs.files + {listFile});
    assert mergedPath in fs1.files <==> mergedPath in fs.files || mergedPath == listFile;
    if runs != [] && runs[0].Exited? {
      var fs2 := Created(fs1, mergedPath, runs[0].wrote);
      assert MergeRun(fs, runs, cwd, valid, mergedPath, listFile).merged ==
        if runs[0].code == 0 && mergedPath in fs2.files then Some(mergedPath) else None;
    }
  }

  /** The merge never removes an input, discards the manifest unless its removal is
      refused, and a merged file it reports is there afterwards. */
  lemma MergeRunFiles(fs: Fs, runs: seq<ToolRun>, cwd: string, valid: seq<string>, mergedPath: string,
                      listFile: string)
    requires mergedPath != listFile
    ensures var o := MergeRun(fs, runs, cwd, valid, mergedPath, listFile);
      && (o.merged.Some? ==> mergedPath in o.fs.files)
      && fs.files - {listFile} <= o.fs.files
      && (listFile !in fs.locked ==> listFile !in o.fs.files)
  {
    var fs1 := fs.(files := fs.files + {listFile});
    var (run, rest) := NextRun(runs);
    var fs2 := if run.LaunchFailed? then fs1 else Created(fs1, mergedPath, run.wrote);
    assert fs.files <= fs2.files && fs2.locked == fs.locked;
    var fs3 := DiscardManifest(fs2, listFile);
    assert MergeRun(fs, runs, cwd, valid, mergedPath, listFile).fs == fs3;
    assert fs2.files - {listFile} <= fs3.files;
  }

  /** `merge_videos`, writing the manifest line by line. */
  method MergeVideos(fs: Fs, runs: seq<ToolRun>, cwd: string, fileList: seq<string>, title: string,
                     season: int, firstId: string, lastId: string) returns (o: MergeOutcome)
    ensures o == MergeSpec(fs, runs, cwd, fileList, title, season, firstId, lastId)
  {
    if fileList == [] {
      return MergeOutcome(None, fs, runs, [], []);
    }
    var valid := ExistingFiles(fs, fileList);
    if |valid| != |fileList| {
      return MergeOutcome(None, fs, runs, [], []);
    }
    var mergedPath := MergedPath(fileList, title, season, firstId, lastId);
    var listFile := ManifestPath(fileList);
    var manifest: seq<string> := [];
    for i := 0 to |valid|
      invariant manifest == Manifest(cwd, valid[..i])
    {
      MapPrefix(valid, i, f => ManifestLineAsWritten(Abspath(cwd, f)));
      manifest := manifest + [ManifestLineAsWritten(Abspath(cwd, valid[i]))];
    }
    assert valid[..|valid|] == valid;
    var fs1 := fs.(files := fs.files + {listFile});
    var cmd := MergeCommand(listFile, mergedPath);
    var (run, rest) := NextRun(runs);
    if run.LaunchFailed? {
      return MergeOutcome(None, DiscardManifest(fs1, listFile), rest, manifest, [cmd]);
    }
    var fs2 := Created(fs1, mergedPath, run.wrote);
    var merged := if run.code == 0 && mergedPath in fs2.files then Some(mergedPath) else None;
    o := MergeOutcome(merged, DiscardManifest(fs2, listFile), rest, manifest, [cmd]);
  }

  /** The merged file's name ends in `.mp4`, so it is never the manifest's name. */
  lemma MergedFilenameShape(title: string, season: int, firstId: string, lastId: string)
    ensures EndsWith(MergedFilename(title, season, firstId, lastId), ".mp4")
    ensures MergedFilename(title, season, firstId, lastId) != ManifestName
  {
    var stem := title + " Season " + Pad2(season) + " Episodes " + firstId + "-" + lastId;
    AppendClean(stem, ".mp4");
    assert stem + ".mp4" == title + " Season " + Pad2(season) + " Episodes " + firstId + "-" + lastId + ".mp4";
    var m := MergedFilename(title, season, firstId, lastId);
    assert m[|m| - 1] == '4';
  }

  lemma JoinDistinct(dir: string, a: string, b: string)
    requires a != b && !StartsWith(a, "/") && !StartsWith(b, "/")
    ensures Join(dir, a) != Join(dir, b)
  {
    var pre := if dir == [] || dir[|dir| - 1] == '/' then dir else dir + "/";
    assert Join(dir, a) == pre + a && Join(dir, b) == pre + b;
  }

  /** The merged file and the manifest are different paths. */
  lemma MergedPathNotManifest(fileList: seq<string>, title: string, season: int, firstId: string, lastId: string)
    requires fileList != []
    ensures MergedPath(fileList, title, season, firstId, lastId) != ManifestPath(fileList)
  {
    var m := MergedFilename(title, season, firstId, lastId);
    MergedFilenameShape(title, season, firstId, lastId);
    assert !StartsWith(m, "/") by {
      if m != [] { assert !Forbidden(m[0]); }
    }
    assert !StartsWith(ManifestName, "/") by { assert ManifestName[0] == 'f'; }
    JoinDistinct(Dirname(fileList[0]), m, ManifestName);
  }

  /** `merge_videos` refuses an empty list and a list naming a missing file, and then
      changes nothing. */
  lemma {:induction false} MergeRefuses(fs: Fs, runs: seq<ToolRun>, cwd: string, fileList: seq<string>,
                                        title: string, season: int, firstId: string, lastId: string)
    ensures var o := MergeSpec(fs, runs, cwd, fileList, title, season, firstId, lastId);
      (fileList == [] || exists i :: 0 <= i < |fileList| && fileList[i] !in fs.files) <==>
        o.launched == []
    ensures var o := MergeSpec(fs, runs, cwd, fileList, title, season, firstId, lastId);
      o.launched == [] ==> o == MergeOutcome(None, fs, runs, [], [])
  {
    FilterKeepsAll(fileList, f => f in fs.files);
  }

  /** A successful merge returns the merged path beside the first input, named by
      `MergedFilename`, and that file exists afterwards. */
  lemma MergeSuccess(fs: Fs, runs: seq<ToolRun>, cwd: string, fileList: seq<string>,
                     title: string, season: int, firstId: string, lastId: string)
    ensures var o := MergeSpec(fs, runs, cwd, fileList, title, season, firstId, lastId);
      o.merged.Some? ==>
        && fileList != [] && (forall f :: f in fileList ==> f in fs.files)
        && o.merged.value == MergedPath(fileList, title, season, firstId, lastId)
        && LastSegment(o.merged.value) == MergedFilename(title, season, firstId, lastId)
        && o.merged.value in o.fs.files
  {
    if fileList != [] {
      var valid := ExistingFiles(fs, fileList);
      var mergedPath := MergedPath(fileList, title, season, firstId, lastId);
      MergedPathNotManifest(fileList, title, season, firstId, lastId);
      MergeRunResult(fs, runs, cwd, valid, mergedPath, ManifestPath(fileList));
      MergeRunFiles(fs, runs, cwd, valid, mergedPath, ManifestPath(fileList));
      FilterKeepsAll(fileList, f => f in fs.files);
      MergedNameBase(fileList, title, season, firstId, lastId);
    }
  }

  lemma MergedNameBase(fileList: seq<string>, title: string, season: int, firstId: string, lastId: string)
    requires fileList != []
    ensures LastSegment(MergedPath(fileList, title, season, firstId, lastId)) == MergedFilename(title, season, firstId, lastId)
  {
    var m := MergedFilename(title, season, firstId, lastId);
    MergedFilenameShape(title, season, firstId, lastId);
    assert '/' !in m by {
      forall i | 0 <= i < |m| ensures m[i] != '/' { assert !Forbidden(m[i]); }
    }
    JoinBasename(Dirname(fileList[0]), m);
  }

  /** The merge deletes no input; once it launches ffmpeg it leaves no manifest behind
      (its removal not being refused), and it writes one line per input, in order, holding
      the input's absolute path; the line reads back as that path when the path holds no
      `'` and no line break (`AsWrittenLosesQuote` and `LineBreakCutsPath` show paths that
      do not). */
  lemma MergeFootprint(fs: Fs, runs: seq<ToolRun>, cwd: string, fileList: seq<string>,
                       title: string, season: int, firstId: string, lastId: string)
    requires fileList != [] && ManifestPath(fileList) !in fs.locked
    ensures var o := MergeSpec(fs, runs, cwd, fileList, title, season, firstId, lastId);
      && fs.files - {ManifestPath(fileList)} <= o.fs.files
      && (o.launched != [] ==>
            && ManifestPath(fileList) !in o.fs.files
            && |o.manifest| == |fileList|
            && (forall i :: 0 <= i < |fileList| ==> o.manifest[i] == ManifestLineAsWritten(Abspath(cwd, fileList[i])))
            && forall i :: 0 <= i < |fileList| && '\'' !in Abspath(cwd, fileList[i]) && NoLineBreak(Abspath(cwd, fileList[i])) ==>
                 FileOperand(FirstLine(o.manifest[i])) == Some(Abspath(cwd, fileList[i])))
  {
    var valid := ExistingFiles(fs, fileList);
    var listFile := ManifestPath(fileList);
    if |valid| == |fileList| {
      var mergedPath := MergedPath(fileList, title, season, firstId, lastId);
      MergedPathNotManifest(fileList, title, season, firstId, lastId);
      MergeRunResult(fs, runs, cwd, valid, mergedPath, listFile);
      MergeRunFiles(fs, runs, cwd, valid, mergedPath, listFile);
      FilterKeepsAll(fileList, f => f in fs.files);
      FilterSpec(fileList, f => f in fs.files);
      assert valid == fileList;
      forall i | 0 <= i < |fileList| && '\'' !in Abspath(cwd, fileList[i]) && NoLineBreak(Abspath(cwd, fileList[i]))
        ensures FileOperand(FirstLine(Manifest(cwd, valid)[i])) == Some(Abspath(cwd, fileList[i]))
      {
        AsWrittenWithoutQuote(Abspath(cwd, fileList[i]));
      }
    }
  }
}
