# Ani-Downloader, modelled in Dafny

Ani-Downloader is a small web application that downloads anime episodes from
the AnimeKai site. A user submits an anime page URL and a selection, and a
background worker runs the download job:

1. It resolves the anime's id and title, and detects the season from the title.
2. It lists the episodes and sorts them by a numeric key.
3. It chooses a video server per episode and resolves the server to a media URL
   and its subtitle tracks.
4. It downloads each episode with yt-dlp, muxing subtitles in with ffmpeg, and
   retries a bounded number of times.
5. On request it concatenates the episodes into one file, and can remove the
   individual files afterwards.

The job's progress, log and result are kept in a `DownloadJob` record. A
registry of jobs backs the `start`, `status`, `list` and `clear` endpoints.
A separate search function turns the site's result items into a
de-duplicated list of anime.

The model is in seven modules, one file each:

| file | module | models |
|---|---|---|
| `text.dfy` | `Text` | string helpers: digit numerals, `strip`, `lower`, `str.replace`, the file-name sanitiser `re.sub(r'[<>:"/\\|?*]', "", …)`, `split('/')[-1]`, `os.path.join`, `dirname` and `abspath` |
| `seqs.dfy` | `Seqs` | Python's stable `list.sort(key=…)` as an insertion sort over a total preorder, plus filters, maps, slicing and the tail of a list |
| `resolver.dfy` | `Resolver` | the resolving side of `AnimeDownloader`: anime details, season detection, the episode sort key and listing, server choice, and the media URL and subtitle tracks |
| `executor.dfy` | `Executor` | the executing side of `AnimeDownloader`: file names, the yt-dlp and ffmpeg flow, the retry loop, and the concatenation merge with its manifest |
| `models.dfy` | `Models` | `DownloadJob` as a class: its constructor, `add_log` and `to_dict` |
| `orchestrator.dfy` | `Orchestrator` | `run_download_job` phase by phase, and the job registry |
| `search.dfy` | `Search` | the item loop of `search_anime` |

**Outside world.** Everything outside the program is an explicit value:

- **Remote side.** `Resolver.Remote` holds the site's pages and JSON answers and
  the encode/decode service, as maps from what is sent to what comes back. A
  missing key stands for every way the request can fail; the source turns all
  of them into the same empty answer.
- **Filesystem.** `Executor.Fs` is the set of existing paths plus the paths
  whose removal is refused.
- **External tools.** yt-dlp and ffmpeg are a script of `ToolRun`s: an exit
  code and whether the tool wrote its output file. They are consumed in launch
  order. An exhausted script stands for a tool that fails to start.
- **Clock.** Times are integer microseconds. A run of the worker uses one clock
  reading.

**Classes and methods.** The job and the registry are classes whose methods
update their fields in place. Each method is proved against a function of the
old state: `RunDownloadJob`'s new state is `RunJob(old(...))`, and lemmas and
postconditions state what the functions guarantee. The loops of the source are
methods with loop invariants:

- the episode loop;
- the listing loop;
- the caption filter;
- the subtitle fetch and cleanup;
- the retry loop;
- the merge;
- the search item loop.

## Model

| member | source | states |
|---|---|---|
| Text.Sanitize | app/downloader.py:124 | the sanitised title holds none of `<>:"/\|?*` and is no longer than the input |
| Text.SanitizeCounts | app/downloader.py:330 | every forbidden character is removed, and every other character keeps its number of occurrences |
| Text.SanitizeKeepsClean | app/downloader.py:330 | a name without forbidden characters passes unchanged |
| Text.SanitizeIdempotent | app/downloader.py:456 | sanitising twice is sanitising once |
| Text.SanitizeConcat | app/downloader.py:456 | sanitising distributes over concatenation |
| Text.LastSegment | app/search.py:97 | `split('/')[-1]` contains no slash, ends the string, and follows the last slash |
| Text.JoinBasename | routes/download.py:125 | the base name of `os.path.join(dir, name)` is `name` |
| Seqs.SortBySorted | app/downloader.py:193 | `list.sort` with a total-preorder key comparison yields a sorted list |
| Seqs.SortByPermutation | app/downloader.py:193 | the sort is a permutation of its input |
| Seqs.SortByStable | app/downloader.py:193 | elements with equal keys keep their relative order |
| Seqs.FilterSpec | routes/download.py:67 | a list comprehension with a condition keeps exactly the elements that satisfy it, in order |
| Seqs.LastN | app/models.py:34-35 | the last n entries: length min(n, len), and the dropped entries are a prefix |
| Seqs.SliceTo | app/search.py:57 | `items[:k]` for either sign of k: a prefix of length k, len+k, or 0, capped by the length |
| Resolver.AnimeDetails | app/downloader.py:106-128 | the title is sanitised; an unfetchable page yields `(None, "Unknown")`; otherwise the id is the page's `data-id` |
| Resolver.FirstPresent | app/downloader.py:116-123 | the first title selector that finds an element is used; none found means none present |
| Resolver.SearchSpec | app/downloader.py:141 | `re.search` finds nothing iff no position matches, and otherwise returns the leftmost match |
| Resolver.FirstPatternMatchSpec | app/downloader.py:140-143 | the patterns are tried in order, and the first that matches decides |
| Resolver.DetectSeasonSpec | app/downloader.py:130-144 | the season is the number captured by the first matching pattern of the six, or 1 when none matches |
| Resolver.SeasonExample0 | app/downloader.py:133 | "Show Season 2" is season 2 |
| Resolver.SeasonExample1 | app/downloader.py:134 | "Show S3" is season 3 |
| Resolver.SeasonExample2 | app/downloader.py:135 | "Show 2nd Season" is season 2 (the `[Ss](\d+)` pattern does not fire first) |
| Resolver.SeasonExample3 | app/downloader.py:136 | "Show 4" is season 4, by the trailing-number pattern |
| Resolver.SeasonExample4 | app/downloader.py:144 | a title without any pattern is season 1 |
| Resolver.SafeEpisodeKey | app/downloader.py:146-153 | the fraction lies in [0, 1); an id not starting with a digit gets the sentinel key `(10**9, 0.0)` |
| Resolver.KeyOfNumeral | app/downloader.py:148-152 | an id `d` or `d.f` followed by a non-digit gets the key `(int(d), 0.f)` |
| Resolver.KeyLeTotalOrder | app/downloader.py:193 | tuple comparison of the keys is reflexive, antisymmetric, transitive and total |
| Resolver.ParseIntRoundTrip | app/downloader.py:176 | `int(str(n)) == n` for every integer n |
| Resolver.LangsOfNumber | app/downloader.py:174-184 | the `langs` flag 1 reads "Sub", 3 reads "Dub & Sub", and every other number reads "" |
| Resolver.MakeEpisode | app/downloader.py:172-192 | an entry's title is "Episode " + id, and its sort key is the key of its id |
| Resolver.GetEpisodeList | app/downloader.py:155-197 | one entry per listed anchor, then sorted; empty when the token or the listing is unavailable |
| Resolver.EpisodeListSpec | app/downloader.py:186-193 | the listing is sorted by key, is a permutation of the anchors' entries, and keeps equal keys in listing order |
| Resolver.ChooseServer | app/downloader.py:229-257 | no server only for an empty list; otherwise one of the listed servers |
| Resolver.ChooseServerCascade | app/downloader.py:236-257 | the first of exact, name and type match that any server satisfies picks the first such server; otherwise the first server |
| Resolver.ChooseServerExample | app/downloader.py:241-244 | with "Soft Sub" and "Server 1", a "sub" server named "Server 1" beats a "softsub" "Server 2" on the name rule |
| Resolver.UrlParseOfEmbed | app/downloader.py:280 | `urlparse` of `scheme://host/path?query` gives that scheme, and the host and path with every tab, carriage return and line feed deleted, as `urlsplit` deletes them |
| Resolver.CleanUrlIdempotent | app/downloader.py:280 | the URL `urlsplit` cleans (leading control characters and spaces stripped, tab, CR and LF deleted) cleans to itself |
| Resolver.MediaUrlOfEmbed | app/downloader.py:280-282 | an embed URL `scheme://host/dirs/token?q` gives the media URL `scheme://host/media/token`, with any tab, CR or LF removed from host and token (`https://ho\tst/e/tok` gives `https://host/media/tok`) |
| Resolver.ResolvePayload | app/downloader.py:261-296 | the payload exists only when every stage answers and `sources` is non-empty; without a token nothing resolves |
| Resolver.CaptionTracks | app/downloader.py:300-308 | the kept tracks are exactly the caption tracks ending in ".vtt", in order, each with its label or "Unknown" |
| Resolver.GetVideoData | app/downloader.py:259-316 | computes `VideoDataOf`: no data iff the stage chain fails; otherwise the first source's file and the kept caption tracks |
| Executor.EpisodeFilenameShape | app/downloader.py:318-331 | the file name is the sanitised "title Season SS Episode label.mp4" and ends in ".mp4" |
| Executor.WholeIdPadded | app/downloader.py:321-323 | a whole-number id is written with two digits at least |
| Executor.ZeroFractionPadded | app/downloader.py:321-323 | an id such as "7.0" is written as the whole number "07" |
| Executor.FractionalIdVerbatim | app/downloader.py:324-325 | an id with a non-zero fraction is kept as given |
| Executor.NonNumericIdVerbatim | app/downloader.py:326-327 | an id that is empty or does not start with a digit is kept as given |
| Executor.ErrorTextNamesPath | routes/download.py:176-178 | `str(e)` of an `os.remove` error is the `[Errno n] message: ` prefix followed by a Python literal that reads back as exactly the path |
| Executor.ErrorTextQuotes | routes/download.py:176-178 | a path with nothing `repr` escapes is quoted as it is, in double quotes iff it holds a `'` and no `"` |
| Executor.RemoveFile | app/downloader.py:431 | `os.remove` succeeds iff the path exists and is not locked, and then removes only that path |
| Executor.RetargetYtdlp | app/downloader.py:355-357 | replacing the item after "-o" sends the same yt-dlp command to the temporary file |
| Executor.MuxCommandLayout | app/downloader.py:380-396 | the ffmpeg mux command has the temp input, one `-i` per subtitle in order, the fixed maps, six mapping and metadata items per subtitle, then the codecs and the output |
| Executor.BuildMuxCommand | app/downloader.py:380-396 | the command built by the loops is the mux command laid out above |
| Executor.FetchSubtitles | app/downloader.py:366-376 | the downloaded subtitles are exactly the fetchable tracks, in order, each stored at `_sub<idx>.vtt`, and they are added to the filesystem |
| Executor.Cleanup | app/downloader.py:399-405 | the temp file and then the subtitle files are removed in order, and the first failure skips the rest |
| Executor.DownloadWithYtdlp | app/downloader.py:333-422 | the attempt is the yt-dlp or ffmpeg flow of `YtdlpAttempt`; it never changes the locked set, and success leaves the output on disk |
| Executor.PlainDownload | app/downloader.py:416-418 | without subtitles, one yt-dlp run decides: success iff it exits 0 and the output exists |
| Executor.YtdlpReachesMux | app/downloader.py:355-397 | when the video arrives and a subtitle downloads, the attempt continues at the mux with the retargeted command |
| Executor.MuxFailure | app/downloader.py:397-412 | a failed mux whose cleanup succeeds leaves neither the video nor the output, so the attempt fails |
| Executor.FailedMuxLosesVideo | app/downloader.py:397-412 | after a downloaded video and a failed mux, the attempt fails and leaves no file at all |
| Executor.DownloadEpisode | app/downloader.py:424-441 | the retry loop computes `DownloadEpisodeSpec` |
| Executor.DownloadEpisodeRetries | app/downloader.py:429-441 | at most `max_retries` attempts; every attempt before the last failed; success iff the last succeeded, and then the output exists; without an error, a failure used every attempt |
| Executor.AttemptsStartWithoutOutput | app/downloader.py:429-431 | every attempt starts from a filesystem without the output file: two attempts that agree whenever the output is absent give the same retry loop |
| Executor.DownloadEpisodeIgnoresStale | app/downloader.py:429-431 | with at least one attempt, a deletable stale output makes no difference to the download's outcome |
| Executor.DownloadEpisodeRaise | app/downloader.py:430-431 | the only error is the refused removal of a stale output, and it cannot happen when the output is not locked |
| Executor.NoAttempts | app/downloader.py:429 | with `max_retries <= 0` nothing is attempted and the result is failure |
| Executor.ManifestLineRoundTrip | app/downloader.py:463-465 | the corrected manifest line of a path without a line break reads back, under the concat script's quoting, as exactly the path written |
| Executor.AsWrittenWithoutQuote | app/downloader.py:465 | the line as written reads back correctly for a path without a single quote and without a line break |
| Executor.AsWrittenLosesQuote | app/downloader.py:465 | the line as written reads a path `a'b` back as `ab` |
| Executor.LineBreakCutsPath | app/downloader.py:465 | a path with a line break (CR, LF or NUL) after its first character is read back, escaped or not, as that first character alone, since the concat reader ends the line at the break |
| Executor.MergeVideos | app/downloader.py:443-496 | the merge, writing each manifest line unescaped as the source does, computes `MergeSpec` |
| Executor.ManifestFixedReadsBack | app/downloader.py:463-465 | every line of the escaped manifest whose path holds no line break reads back as its input's absolute path, quotes included |
| Executor.ManifestFixedAgrees | app/downloader.py:463-465 | the escaped manifest is the written one when no input path holds a `'` |
| Executor.MergeRefuses | app/downloader.py:446-453 | nothing is launched or changed iff the list is empty or one of its files is missing |
| Executor.MergeRunResult | app/downloader.py:461-487 | once the checks pass, one ffmpeg concat run over the manifest as the source writes it (unescaped lines); the merged path is returned iff ffmpeg exits 0 with the file present |
| Executor.MergeSuccess | app/downloader.py:455-487 | a returned path lies beside the first input, carries the merged file name, and exists |
| Executor.MergeFootprint | app/downloader.py:461-496 | the merge only adds files, the manifest is gone afterwards, each manifest line is `file '<absolute path>'` of its input, and it reads back as that path when the path holds no `'` and no line break |
| Executor.MergedFilenameShape | app/downloader.py:455-456 | the merged name ends in ".mp4" and is never the manifest's name |
| Models.ClockShape | app/models.py:28 | the log time stamp is `HH:MM:SS`, with the hour, minute and second of the day |
| Models.AppendLogSpec | app/models.py:26-36 | the log grows by one up to 100 entries, the new entry is last, and the rest are the newest old entries |
| Models.AppendLogWindow | app/models.py:34-35 | below 100 entries nothing is dropped; at 100 the oldest entry is dropped |
| Models.WithLog | app/models.py:26-36 | `add_log` changes only the log |
| Models.TruncSeconds | app/models.py:60 | `int()` of the elapsed seconds rounds toward zero, for either sign |
| Models.ElapsedSeconds | app/models.py:40-44 | `int(elapsed) if elapsed else None`: no value only for exactly zero elapsed time |
| Models.View | app/models.py:38-63 | the snapshot shows the last 20 log entries, the status name, and no elapsed time only when none elapsed |
| Models.DownloadJob.constructor | app/models.py:8-24 | a new job is initialising at 0% with empty logs and files, started now |
| Models.DownloadJob.AddLog | app/models.py:26-36 | the new state is the old one with `WithLog` applied |
| Orchestrator.EffectiveSeason | routes/download.py:49-52 | a configured season other than 0 wins; 0 means the detected one |
| Orchestrator.SelectionSpec | routes/download.py:63-80 | the selection keeps exactly the wanted episodes, in listing order, and "All Episodes" keeps every episode |
| Orchestrator.RangeIsContiguous | routes/download.py:68-78 | in the sorted listing, the episodes of a range selection form a contiguous block |
| Orchestrator.Percent | routes/download.py:131 | progress stays within 100 and reaches 100 when all episodes are done |
| Orchestrator.RecordOutcome | routes/download.py:128-135 | a downloaded episode counts one more, records its base name, and is reported iff the attempt succeeded without error |
| Orchestrator.EpisodeStep | routes/download.py:98-135 | one iteration keeps the job's fixed fields and changes the downloaded names only by the episode's file |
| Orchestrator.EpisodeStepSpec | routes/download.py:104-135 | a reported file exists; the only error is the locked stale file at the episode's path |
| Orchestrator.EpisodeLoop | routes/download.py:98-135 | the loop keeps the fixed fields, and the completed count grows with the files, each the path of a selected episode |
| Orchestrator.EpisodeLoopNames | routes/download.py:98-135 | after the loop, `downloaded_files` is the old list followed by the base name of each file the loop added, in order |
| Orchestrator.EpisodeLoopRaises | routes/download.py:98-135 | a failed episode only `continue`s; the loop stops early only on the refused removal of a stale file at one of the remaining episodes' paths |
| Orchestrator.RunEpisodes | routes/download.py:98-135 | the download loop appends the base name of each downloaded file to `downloaded_files`, and stops early only on a locked stale file at a selected episode's path |
| Orchestrator.DownloadEpisodes | routes/download.py:98-135 | the loop over the job computes `RunEpisodes` |
| Orchestrator.RemoveFirst | routes/download.py:164 | `list.remove` fails iff the name is absent, and otherwise drops exactly one occurrence |
| Orchestrator.RemoveIndividual | routes/download.py:158-166 | the removal loop changes only the log and the names, and deletes exactly the unlocked files |
| Orchestrator.RemoveIndividualNames | routes/download.py:158-166 | the list of names loses one occurrence of the base name of each deleted file (a name not in it is only logged); a refused deletion leaves it alone |
| Orchestrator.RemoveIndividualFiles | routes/download.py:158-166 | the removal loop over the job computes `RemoveIndividual` |
| Orchestrator.MergePhase | routes/download.py:137-168 | the merge block leaves the counts, the error and the configuration alone |
| Orchestrator.MergePhaseSpec | routes/download.py:137-168 | the merge runs iff merging is asked for and more than one file was downloaded, over `selected[0]` to `selected[-1]`, with status merging; otherwise nothing changes; a returned path sets `merged_file` to the merged name, a failure leaves it; the files and names are kept on failure or with `keep_individual_files`, otherwise removed |
| Orchestrator.MergeStage | routes/download.py:137-168 | the merge block over the job computes `MergePhase` |
| Orchestrator.FailJob | routes/download.py:176-182 | a failed job is marked failed, records the message, and is stamped with its end time |
| Orchestrator.CompleteJob | routes/download.py:170-174 | a completed job is at 100% and stamped, with its counts unchanged |
| Orchestrator.Prepare | routes/download.py:37-86 | the fetching phases end failed with a reason, or ready with a non-empty selection counted in `total_episodes` |
| Orchestrator.Select | routes/download.py:55-86 | the episode phase selects from the sorted listing, and fails on an empty listing or an empty selection |
| Orchestrator.FetchPhase | routes/download.py:37-86 | the fetching phases over the job compute `Prepare` |
| Orchestrator.DownloadPhase | routes/download.py:92-182 | the job ends completed or failed and stamped, with at most one count per selected episode either way; completed means 100% with the error unchanged; failed means an error, `merged_file` unchanged, and one new name in `downloaded_files` per new count |
| Orchestrator.RunJob | routes/download.py:20-182 | every run ends completed or failed and stamped; failure records a reason; a completion adds no error; either way the count grows by at most the selected total |
| Orchestrator.RunJobOutcome | routes/download.py:170-182 | a job that starts without an error completes iff it ends without one |
| Orchestrator.RunDownloadJob | routes/download.py:20-182 | the worker's updates to the job compute `RunJob` |
| Orchestrator.DefaultConfig | routes/download.py:233-247 | a request naming only the URL gets the documented defaults |
| Orchestrator.Without | routes/download.py:295 | deleting a key keeps every other key and its increasing order |
| Orchestrator.Registry.constructor | routes/download.py:16-17 | the registry starts empty with the counter at 0 |
| Orchestrator.Registry.StartDownload | routes/download.py:217-263 | a missing or empty URL is a 400 that changes nothing; otherwise the counter advances to a fresh id under which a new job is registered last |
| Orchestrator.Registry.GetStatus | routes/download.py:270-277 | an unknown id is a 404; otherwise the job's snapshot |
| Orchestrator.Registry.ListDownloadsSpec | routes/download.py:281-286 | all snapshots exactly once, newest first, and jobs with the same start time in registry order |
| Orchestrator.Registry.ClearJob | routes/download.py:290-299 | an unknown id is a 404, an active job a 400, and a finished job is removed with nothing else changed |
| Search.AbsoluteUrl | app/search.py:79-81 | the URL starts with "http" and ends with the href; an href already starting with "http" is kept |
| Search.Visit | app/search.py:78-103 | one item adds at most its own record and only grows the seen set; the loop stops iff a record was added and the count reached `max_results` |
| Search.SearchItems | app/search.py:57-106 | the item loop computes `SearchResults` over the first `2 * max_results` items |
| Search.ResultsWellFormed | app/search.py:83-98 | every result has a non-empty title and an http URL whose last segment is its id, and no two results share a URL |
| Search.ResultCount | app/search.py:57-103 | at most `max_results` results from at most `2 * max_results` items; for a negative limit, at most one |
| Search.ResultsFromCandidates | app/search.py:57-98 | the results are a subsequence of the records of the linked candidate items |
| Search.ResultsComplete | app/search.py:83-103 | a short result list contains every candidate that is the first with its URL and has a title |
| Search.SeenBeforeTitle | app/search.py:83-92 | a URL is marked seen before the title check, so an untitled first occurrence hides a titled duplicate |

## Left out

- Networking, HTML parsing, JSON decoding and the encode/decode service are left out: `Remote` replaces them with maps from request to answer.
- HTML parsing for search is left out the same way: the item selectors of `search_anime` become the `Item` fields.
- Threads, `job_lock`, `time.sleep` and `os.makedirs` are left out: the model is sequential and the directory always exists.
- Log lines that the downloader sends through `log_callback` are not appended to the job log in the model. The worker's own `add_log` calls are modelled.
- `print` output in `search_anime` is not modelled.
- The network failure of `search_anime` is left out. It returns `[]`, and `SearchItems` starts from the parsed items.
- Search's per-item `except` is left out: no modelled step of an item can raise.
- Orchestrator.Percent: computes `100 * completed // total` exactly. It does not model the float rounding of `int((c / t) * 100)`, which gives 28 for 29/100.
- Resolver.SafeEpisodeKey: the fraction is the exact rational `0.f`, not the nearest float. In the model, keys such as `0.1` and `0.10` are equal, as they are in Python. Two fractions that differ only past a double's precision are equal keys in Python and ordered in the model.
- Resolver.KeyOfNumeral: the key's fraction is exact where `float("0.f")` rounds (the `Resolver.SafeEpisodeKey` line).
- `\d`, `\s` and `lower()` are ASCII-only in the model. Python also accepts other Unicode digits and spaces.
- Executor.EpisodeLabel: only ids of the form `\d+(\.\d+)?` count as numbers, read exactly. Other spellings `float()` accepts (signs, exponents, surrounding spaces) are kept verbatim: Python writes "+5" as `05` and "-0" as `00`. For "inf" or "infinity" the source raises an uncaught `OverflowError` at app/downloader.py:322 and the job fails, where the model keeps the id. The rounding of `float()` to a double is not modelled: for "7.0000000000000000001" Python writes `07` where the model keeps the id, and for "12345678901234567890" Python writes `12345678901234567168` where the model keeps the digits.
- Executor.WholeIdPadded: holds of the exact reading only; for a whole id past 2^53 Python writes the float-rounded number instead (the `Executor.EpisodeLabel` line).
- Executor.ZeroFractionPadded: holds of the exact reading only; a whole part past 2^53 is float-rounded in Python (the `Executor.EpisodeLabel` line).
- Executor.NonNumericIdVerbatim: false of the source for signed ids such as "+5" and "-0", which Python pads, and for "inf", which raises (the `Executor.EpisodeLabel` line).
- Executor.FractionalIdVerbatim: holds of the exact reading only. It is false of the source for an id whose fraction `float()` rounds away, such as "7.0000000000000000001", which Python writes as `07`.
- Text.Abspath: joins a relative path to the working directory and leaves out `os.path.normpath`, also for absolute paths. Python gives `/d/x.mp4` for `/d/./x.mp4`; the model keeps `/d/./x.mp4`.
- Resolver.ParseInt: rejects the `_` digit separators that `int()` accepts. For langs "0_1" Python maps to "Sub" and the model to "".
- The merge as the source writes it is modelled (`Executor.Manifest`, `Executor.MergeSpec`, `Executor.MergeVideos`); the escaped manifest of the Findings table is `Executor.ManifestFixed`, and no merge in the model writes it.
- Resolver.UrlParse: models the cleaning `urlsplit` does first (leading C0 control characters and spaces stripped, every tab, CR and LF deleted), then only the scheme, netloc and path. It leaves out userinfo, ports, IPv6 brackets and the `ValueError` for unbalanced ones, the NFKC check on the netloc, and `urlparse`'s handling of a scheme-less URL with a port.
- Executor.ErrorText: `repr` is modelled for ASCII only. Python also escapes the non-printable characters past ASCII (such as `\x85` or U+2028) as `\x`, `\u` or `\U` sequences; the model writes them as they are.
- File writes always succeed in the model: the subtitle file, the manifest, and the file yt-dlp or ffmpeg reports writing.
- `shutil.move` always succeeds. Only `os.remove` can fail, on a missing or locked path.
- `get_video_servers` is not modelled past its result: `Resolver.VideoServers` looks the listing up, and its HTML parsing is left out.
- `get_anime_info` (routes/download.py:186-213) is not part of this model. It is an endpoint that reports details and is not on the download path.
- JSON nulls and wrongly typed request fields are left out of `start_download`, and so is its 500 path. The request is a record of optional fields.
- `to_dict`'s start and end times stay numeric instead of ISO strings. ISO strings of one format sort in time order, so `list_downloads` is unaffected.
- One clock reading stamps every step of a run.
- The "Could not choose server" branch (routes/download.py:111-113) is not modelled: `ChooseServer` never returns nothing for a non-empty list.
- The traceback text of the failure path is an input.
- The `if os.path.exists(temp_video): shutil.move(temp_video, output_file)` branch at app/downloader.py:409-411 is a fallback to the plain video after a failed mux. The cleanup at lines 399-405 deletes the temporary video before that branch runs, so the fallback only fires when the deletion failed. The model follows the code, and `Executor.FailedMuxLosesVideo` states its behaviour.

## Findings

| source | as written | input that shows it | evidently intended | confidence | as-written member | corrected member |
|---|---|---|---|---|---|---|
| app/downloader.py:465 | each manifest line is `file '<path>'` with the path unescaped, and ffmpeg's concat reader ends the quoted run at a `'` inside the path | a title with an apostrophe, such as "Frieren: Beyond Journey's End", yields a path `a'b` that reads back as `ab`, so the merge names a file that does not exist | every input path without a line break reads back unchanged, with `'` written as `'\''` | not executed | Executor.AsWrittenLosesQuote | Executor.ManifestFixedReadsBack |
