# HyFuzz core in Dafny

This project models the detection-and-fuzzing pipeline of HyFuzz, an HTTP
vulnerability detector, and proves properties of that model. For every open
port of a target, the pipeline does the following:

- It names the HTTP server from its `Server:` banner.
- It runs the generic path-traversal and SQL-injection checks.
- It runs the nginx version-specific checks from a registry.
- When nothing is found, it fuzzes the port at depth 1, 2, … up to a chosen
  maximum, with boofuzz or Hypothesis, and stops at the first depth whose log
  holds anomalous sessions.
- After anomalies, it generates ten new request cases, with a GAN trained on
  the anomalous request lengths or with the DeepSeek length learner.
- It replays the generated cases against the target and classifies each reply.

The fuzzers, the generators and the replay tester talk to each other only
through text transcripts:

- Each fuzzer writes records of the form `Info: Sending …`,
  `Transmitted N bytes: b'…'`, `[Anomaly]`/`[Exception]`, `Closing
  connection`, `Sleeping`.
- The loaders read these records back with substring tests, Python's `repr`
  of the transmitted bytes, and an `eval` of that literal.

The model writes each of these formats out. It covers UTF-8 with
`errors="ignore"`, Python's `bytes.__repr__` with the literal evaluator that
undoes it, `str.strip`, `int()` on a typed line of ASCII digits, `re.search` for `Server:` and
`bytes:\s+(b["'].*["'])`, and line splitting. The round trips between writer
and reader are proved. Among the facts the proofs establish:

- A Hypothesis log, read back from its file and loaded by `load_fuzz_data`,
  yields every anomalous request's length twice. The closing line and the
  sleeping line each flush the same session (`Replay.LoadHypothesisLog`).
  This holds while no repr holds `bytes:` or `Info: Sending fuzz case` and no
  reason phrase or exception message holds a line break, `Transmitted` or
  `Info: Sending fuzz case`. A line break splits the outcome line
  (`Replay.BrokenReasonSplits`), a `bytes:` in the repr loses the length
  (`Replay.MarkerInReprLosesLength`), and a marker in the outcome text loses
  the whole record (`Replay.MarkedOutcomeLoadsNothing`).
- The GAN's own output log yields no anomaly cases at all
  (`Replay.GanLogLoadsNothing`).
- The DeepSeek output file contains no `Transmitted … bytes:` line. The
  generalization test therefore finds no payloads in it and sends no request
  (`Generalization.DeepSeekOutputYieldsNothing`,
  `Pipeline.DeepSeekGeneralizesNothing`).
- The GAN output file yields exactly its ten requests, in order
  (`Generalization.GanOutputReplay`, `Pipeline.GanGeneralizesEveryCase`).
- With boofuzz, `main` hands the output directory, not the log, to
  `load_fuzz_data`. Opening a directory raises, the error is caught, and
  boofuzz fuzzing never reaches the generation step
  (`Pipeline.BoofuzzNeverEscalates`, `Pipeline.BoofuzzNeverGenerates`).
- When DeepSeek's `train_from_log` raises, nothing in `main` catches it: the
  run ends on that port, with no report for it and no later port handled
  (`Pipeline.RunMain`).
- DeepSeek trains from `fuzz_output/fuzz.log`, the boofuzz log. Hypothesis
  writes `fuzz_output/fuzz2.log` instead
  (`DeepSeekGenerator.DefaultLogIsNotHypothesisLog`).

Modules, one per source file, plus shared text support:

| module | file | models |
|---|---|---|
| `DepthSelector` | depth_selector.dfy | `utils/depth_selector.py` |
| `CveQuery` | cve_query.dfy | `modules/cve_query.py` |
| `ServiceDetector` | service_detector.dfy | `modules/service_detector.py` |
| `VulnOrchestrator` | vuln_orchestrator.dfy | `modules/vuln_orchestrator.py` |
| `HypothesisFuzz` | hypothesis_fuzz.dfy | `modules/fuzz_tester/hypothesis_fuzz.py` |
| `BoofuzzFuzz` | boofuzz_fuzz.dfy | `modules/fuzz_tester/boofuzz_fuzz.py` |
| `GanModel` | gan_model.dfy | `modules/fuzz_tester/gan_model.py` |
| `DeepSeekGenerator` | deepseek_generator.dfy | `modules/fuzz_tester/deepseek_generator.py` |
| `Generalization` | generalization_tester.dfy | `modules/fuzz_tester/generalization_tester.py` |
| `Pipeline` | main.dfy | `main.py` |
| `Replay` | replay.dfy | what `load_fuzz_data` and `train_from_log` read back from a Hypothesis log |
| `Transcript` | transcript.dfy | the log line formats and the shared `Transmitted` length reader |
| `Text`, `Utf8`, `PyBytes`, `Wrappers` | text.dfy, utf8.dfy, py_bytes.dfy, wrappers.dfy | Python string, encoding and `bytes` literal behaviour |

Form of the model:

- Imperative source is modelled as methods with loops, proved against
  specification functions. This covers the parse loops of `load_fuzz_data`,
  `train_from_log` and `extract_payloads_from_log`, the depth loop and the
  port loop of `main`, and the registry loop of `perform_vulnerability_scan`.
- Objects with mutable state are classes: Hypothesis' case counter and log
  (`HypothesisFuzz.FuzzRun`), boofuzz's `CustomLogger` and `DeepSeekGenerator`.
- Random choices are nondeterministic choices constrained as the source
  constrains them: the payload alphabet, `randint(5, 100)`, and a learned
  length ± 2 floored at 1.

## Model

| member | source | states |
|---|---|---|
| DepthSelector.SelectMaxDepth | utils/depth_selector.py:1-20 | The depth is always in 1..5. It differs from the default 3 only when the stripped input parses as that integer, and a parsed value in 1..5 is returned as is. |
| DepthSelector.TypedDepthKept | utils/depth_selector.py:11-14 | A typed depth 1..5, with or without leading blanks, is the depth chosen. |
| DepthSelector.OutOfRangeDefault | utils/depth_selector.py:13-17 | A typed integer outside 1..5 gives the default 3. |
| DepthSelector.NonIntegerDefault | utils/depth_selector.py:18-20 | A line `int()` rejects gives the default 3. |
| Text.ParseIntToString | utils/depth_selector.py:12 | `int()` of the decimal text of any integer, negative ones included, gives that integer back. |
| Text.StripAfterBlanks | utils/depth_selector.py:11 | `strip()` removes leading blanks and leaves a text without outer blanks unchanged. |
| Text.LStripSpec | utils/depth_selector.py:11 | `lstrip` removes exactly the maximal blank prefix. |
| Text.RStripSpec | utils/depth_selector.py:11 | `rstrip` removes exactly the maximal blank suffix. |
| CveQuery.FilterCvesByVersion | modules/cve_query.py:18-35 | The loop raises exactly when some entry is not a record or has a null, number or boolean description; otherwise it returns the records whose description (default empty) contains the stripped version, as a substring of a string or as an element of a list, in input order. |
| CveQuery.FilteredIsSubsequence | modules/cve_query.py:31-35 | The filtered list is a subsequence of the input: order kept, nothing invented. |
| CveQuery.FilteredMembers | modules/cve_query.py:29-34 | A CVE is in the result if and only if it is in the input and mentions the stripped version. |
| CveQuery.FilteredKeeps | modules/cve_query.py:31-34 | Every kept CVE mentions the version, and every input CVE that mentions it is kept. |
| CveQuery.BlankVersionKeepsAll | modules/cve_query.py:29-33 | A blank version keeps every record whose description is a string or absent, since the empty string is in every string. |
| CveQuery.ListIsNotText | modules/cve_query.py:32-33 | A list description is tested by element equality: a list holding a text that mentions the version does not mention it, while the text itself does. |
| CveQuery.AllMentionKeepsAll | modules/cve_query.py:31-34 | When every CVE mentions the version, the input comes back unchanged. |
| CveQuery.FilterIdempotent | modules/cve_query.py:18-35 | Filtering twice by the same version is filtering once. |
| ServiceDetector.ProbeRequestText | modules/service_detector.py:9-21 | The probe is `GET / HTTP/1.1`, a `Host` header naming the host name or else the IP, and a blank line. |
| ServiceDetector.FirstServer | modules/service_detector.py:28 | The search finds the leftmost case-insensitive `Server: ` followed by a non-newline, or reports that there is none. |
| ServiceDetector.ServerValue | modules/service_detector.py:28-29 | Group 1 exists if and only if the search matches. It is the non-empty rest of the line after the leftmost match, up to the next newline or the end of the reply. |
| ServiceDetector.ParseBanner | modules/service_detector.py:24-29 | A reply not starting with `HTTP/`, or without a `Server:` match, gives "Unknown". Otherwise the name is group 1 stripped. |
| ServiceDetector.DetectHttpService | modules/service_detector.py:8-39 | A timeout, a refused connection, a TLS failure or any other error gives "Unknown", and so does a non-HTTP reply. |
| ServiceDetector.BannerFromReply | modules/service_detector.py:28-29 | The service name is "Unknown" or a newline-free text contained in the reply. |
| ServiceDetector.ServerNameFolds | modules/service_detector.py:28 | `Server: `, `SERVER: ` and `server: ` all match the pattern. |
| ServiceDetector.NoServerBefore | modules/service_detector.py:28 | No match starts inside a prefix that holds no `s`/`S`. |
| ServiceDetector.NoServerInHead | modules/service_detector.py:28 | Header lines that hold no `Server: ` in any capitalisation, ended by a newline, hold no match, whatever follows them. |
| ServiceDetector.BadRequestClear | modules/service_detector.py:28 | The status line `HTTP/1.1 400 Bad Request`, although it holds an `s`, holds no match. |
| ServiceDetector.StripCarriageReturn | modules/service_detector.py:29 | `strip()` removes the CR of a CRLF ending from a value without outer blanks. |
| ServiceDetector.BadRequestBanner | modules/service_detector.py:24-29 | A `400 Bad Request` reply names the server of its `Server:` header, without the CR of the CRLF. |
| ServiceDetector.ServerHeaderFound | modules/service_detector.py:28-29 | When no match starts before it, a `Server:` header line in any capitalisation yields its value up to the newline. |
| ServiceDetector.BannerNamesServer | modules/service_detector.py:22-29 | An HTTP reply in which no match starts before its `Server: v` line names the server as `v` stripped. |
| ServiceDetector.BareCarriageReturn | modules/service_detector.py:28-29 | A `Server:` header, with no match before it, whose value is only the CR of a CRLF ending names the service "", which is not "Unknown". |
| VulnOrchestrator.TestFindings | modules/vuln_orchestrator.py:70-76 | A test of an entry is reported if and only if its probe reports the port vulnerable. |
| VulnOrchestrator.RegistryStep | modules/vuln_orchestrator.py:68-76 | Each registry entry adds its findings and its probes exactly when its condition matches the service. |
| VulnOrchestrator.RunEntryTests | modules/vuln_orchestrator.py:70-76 | The inner loop probes every test of the entry in order. It reports exactly the vulnerable ones, each marked True. A raising probe is logged and skipped. |
| VulnOrchestrator.ScanRegistry | modules/vuln_orchestrator.py:68-76 | The registry loop reports exactly `RegistryFindings` and probes exactly `RegistryCalls`. |
| VulnOrchestrator.PerformVulnerabilityScan | modules/vuln_orchestrator.py:37-78 | The results are the generic finding followed by the registry findings. The flag is true if and only if there is a result. The SQL probe runs only when path traversal was not found. |
| VulnOrchestrator.RegistryCallsShape | modules/vuln_orchestrator.py:16-34 | The probes run are the 1.8 tests when the `nginx.*1\.8` condition holds, followed by the 1.18 tests when `nginx.*1\.18` holds. |
| VulnOrchestrator.FindingsWereCalled | modules/vuln_orchestrator.py:68-76 | Every registry finding was probed and its probe said vulnerable. |
| VulnOrchestrator.RegistryNamesApart | modules/vuln_orchestrator.py:16-34 | The registry's test names are distinct from the generic ones and from each other's entries. |
| VulnOrchestrator.SqlProbeAfterPathTraversal | modules/vuln_orchestrator.py:59-65 | The SQL-injection probe is called if and only if path traversal was not found. |
| VulnOrchestrator.OneGenericFinding | modules/vuln_orchestrator.py:59-65 | Path traversal is reported if and only if found. SQL injection is reported if and only if path traversal was not found and it was. Never both. |
| VulnOrchestrator.EntryProbesRun | modules/vuln_orchestrator.py:68-70 | A test of an entry is probed if and only if that entry's condition matches the service. |
| VulnOrchestrator.RaisedNotReported | modules/vuln_orchestrator.py:71-76 | A probe that raises is never reported. |
| VulnOrchestrator.NoOneDotEight | modules/vuln_orchestrator.py:16-34 | `nginx/1.18.0` contains no `1.8`. |
| VulnOrchestrator.Nginx118MatchesSecondOnly | modules/vuln_orchestrator.py:16-34 | For `nginx/1.18.0` only the 1.18 entry's condition holds, so only its three tests run. |
| HypothesisFuzz.JoinSlashLength | modules/fuzz_tester/hypothesis_fuzz.py:53-56 | Joining segments of 1..n characters with `/` gives a length between 2k-1 and (n+1)k-1. |
| HypothesisFuzz.PathBounds | modules/fuzz_tester/hypothesis_fuzz.py:53-56 | Every generated path starts with `/` and has between 2 and 6·(3+depth) characters. |
| HypothesisFuzz.BuildRawBytes | modules/fuzz_tester/hypothesis_fuzz.py:74-78 | The raw bytes are the UTF-8 of the preview followed by the body, and they end in the body. |
| HypothesisFuzz.SplitHeaderBlock | modules/fuzz_tester/hypothesis_fuzz.py:75-76 | The header block splits into one `k: v` line per header, in order. |
| HypothesisFuzz.PreviewLines | modules/fuzz_tester/hypothesis_fuzz.py:74-77 | The preview splits into the request line, the Host line, one line per header and an empty line. |
| HypothesisFuzz.FuzzRun.constructor | modules/fuzz_tester/hypothesis_fuzz.py:40-48 | A run starts with the counter at 0 and an empty log. |
| HypothesisFuzz.FuzzRun.FuzzCase | modules/fuzz_tester/hypothesis_fuzz.py:69-96 | Every case increments the counter. The five-line record plus a blank line is appended exactly for a status of 500 or more, below 100, or a request exception. |
| HypothesisFuzz.LoggedCasesSound | modules/fuzz_tester/hypothesis_fuzz.py:84-95 | The logged cases carry strictly increasing 1-based case numbers, each that of a trial with a logged outcome. |
| HypothesisFuzz.LoggedCasesComplete | modules/fuzz_tester/hypothesis_fuzz.py:84-95 | Every trial with an anomalous status or an exception is logged under its case number. |
| HypothesisFuzz.LogStep | modules/fuzz_tester/hypothesis_fuzz.py:69-96 | One more trial adds its record exactly when it is logged. |
| HypothesisFuzz.LogPath | modules/fuzz_tester/hypothesis_fuzz.py:12-23 | The log is `fuzz2.log` in the given directory, or else in the default one. |
| HypothesisFuzz.RunHypothesisFuzz | modules/fuzz_tester/hypothesis_fuzz.py:26-103 | The case count is the number of trials Hypothesis ran, and the log holds the records of the logged cases in order. |
| BoofuzzFuzz.RenderAppend | modules/fuzz_tester/boofuzz_fuzz.py:46-89 | The rendered request of two primitive lists is the concatenation of their renderings. |
| BoofuzzFuzz.FuzzValue | modules/fuzz_tester/boofuzz_fuzz.py:60 | The i-th header value is 8·(i+1) letters `A`. |
| BoofuzzFuzz.FuzzHeaders | modules/fuzz_tester/boofuzz_fuzz.py:57-61 | `depth` extra headers take 4·depth primitives. |
| BoofuzzFuzz.CreateHttpRequest | modules/fuzz_tester/boofuzz_fuzz.py:45-90 | The definition is named `HTTP verb`, its block `request-verb`, and it holds 4·depth + 20 primitives, or 4·depth + 29 for POST, PUT and PATCH. |
| BoofuzzFuzz.RenderField | modules/fuzz_tester/boofuzz_fuzz.py:63-71 | A header renders as `name: value` and CRLF. |
| BoofuzzFuzz.RequestStart | modules/fuzz_tester/boofuzz_fuzz.py:48-55 | The request opens with the verb, `/index.html`, `HTTP/1.1` and the Host line. |
| BoofuzzFuzz.RequestEnd | modules/fuzz_tester/boofuzz_fuzz.py:83-89 | The request ends with `Connection: close`, a blank line, and the form body for a body verb. |
| BoofuzzFuzz.FuzzHeaderAt | modules/fuzz_tester/boofuzz_fuzz.py:57-61 | Header i sits at primitives 8+4i .. 12+4i. |
| BoofuzzFuzz.FuzzHeadersAt | modules/fuzz_tester/boofuzz_fuzz.py:57-61 | Header i of the header run is `X-Fuzz-i`. |
| BoofuzzFuzz.FuzzNamesOfHeaders | modules/fuzz_tester/boofuzz_fuzz.py:57-61 | The extra headers are `X-Fuzz-0` … `X-Fuzz-(n-1)`, in order. |
| BoofuzzFuzz.ExtraHeaders | modules/fuzz_tester/boofuzz_fuzz.py:45-90 | The `X-Fuzz-` names of a whole request are exactly those of its depth. |
| BoofuzzFuzz.FormIffBody | modules/fuzz_tester/boofuzz_fuzz.py:73-89 | Content-Type, Content-Length and the form body appear if and only if the verb is POST, PUT or PATCH. |
| BoofuzzFuzz.LongerWithDepth | modules/fuzz_tester/boofuzz_fuzz.py:57-61 | A deeper request renders strictly longer. |
| BoofuzzFuzz.DeclaredLengthDiffers | modules/fuzz_tester/boofuzz_fuzz.py:78-89 | The declared Content-Length is `13`, while the body `param=value` has 11 characters. |
| BoofuzzFuzz.CustomLogger.constructor | modules/fuzz_tester/boofuzz_fuzz.py:8-10 | The logger keeps its file handle and has printed nothing. |
| BoofuzzFuzz.CustomLogger.LogCheckFail | modules/fuzz_tester/boofuzz_fuzz.py:12-17 | A `[CRASH]` line is printed and written to the file. |
| BoofuzzFuzz.CustomLogger.LogFail | modules/fuzz_tester/boofuzz_fuzz.py:19-24 | A `[FAIL]` line is printed and written to the file. |
| BoofuzzFuzz.CustomLogger.LogSend | modules/fuzz_tester/boofuzz_fuzz.py:26-27 | `[SEND]` and the repr of the data are printed. The file is untouched. |
| BoofuzzFuzz.CustomLogger.LogRecv | modules/fuzz_tester/boofuzz_fuzz.py:29-30 | `[RECV]` and the repr of the data are printed. The file is untouched. |
| BoofuzzFuzz.CustomLogger.LogInfo | modules/fuzz_tester/boofuzz_fuzz.py:32-34 | `[INFO]` is printed only for a truthy message. The file is untouched. |
| BoofuzzFuzz.CustomLogger.LogWarn | modules/fuzz_tester/boofuzz_fuzz.py:36-38 | `[WARN]` is printed only for a truthy message. The file is untouched. |
| BoofuzzFuzz.CustomLogger.LogError | modules/fuzz_tester/boofuzz_fuzz.py:40-42 | `[ERROR]` is printed only for a truthy message. The file is untouched. |
| BoofuzzFuzz.Notice | modules/fuzz_tester/boofuzz_fuzz.py:32-42 | A notice is printed if and only if the message is present and non-empty. |
| BoofuzzFuzz.Dispatch | modules/fuzz_tester/boofuzz_fuzz.py:7-42 | Each logger event adds its file text: a line for a crash or a failure, nothing otherwise. |
| BoofuzzFuzz.ReplayEvents | modules/fuzz_tester/boofuzz_fuzz.py:94-106 | A session's events append exactly their file text to the log. |
| BoofuzzFuzz.FileTextStep | modules/fuzz_tester/boofuzz_fuzz.py:12-24 | The file text of the events grows event by event. |
| BoofuzzFuzz.QuietEvents | modules/fuzz_tester/boofuzz_fuzz.py:26-42 | A session without crash or failure writes nothing to `fuzz.log`. |
| BoofuzzFuzz.StartWorkers | modules/fuzz_tester/boofuzz_fuzz.py:121-125 | One worker per method is started, in order, each appending to `fuzz.log` in the output directory. |
| BoofuzzFuzz.RunBoofuzz | modules/fuzz_tester/boofuzz_fuzz.py:110-131 | The result is the given directory, or else `fuzz_output` under the project root. The nine methods each get a worker. |
| Transcript.JoinPath | modules/fuzz_tester/boofuzz_fuzz.py:122 | `os.path.join` puts the name after the directory, with one `/` between them. |
| Transcript.ReadLiteralRepr | modules/fuzz_tester/gan_model.py:46-49 | The repr of bytes, read back as a literal, gives their length. |
| Transcript.TransmittedCount | modules/fuzz_tester/gan_model.py:44-49 | A `Transmitted` line yields the length of the bytes it shows, when their repr holds no `bytes:`. |
| Transcript.LiteralOfTail | modules/fuzz_tester/gan_model.py:46 | What follows the last `bytes:`, stripped, is the literal. |
| Transcript.LengthsAppend | modules/fuzz_tester/gan_model.py:43-49 | The lengths read from two line runs concatenate. |
| Transcript.LengthsNone | modules/fuzz_tester/gan_model.py:43-49 | Lines without `Transmitted … bytes:` contribute nothing. |
| Text.AfterLastSpec | modules/fuzz_tester/gan_model.py:46 | `split("bytes:")[-1]` is the suffix after the last occurrence, or the whole line. |
| Text.AfterLastInfix | modules/fuzz_tester/gan_model.py:46 | The suffix after the last marker is the text following it. |
| Text.SplitLines | modules/fuzz_tester/gan_model.py:31 | The lines iterated contain no line break. |
| Text.SplitLinesCrLf | modules/fuzz_tester/gan_model.py:31 | A CRLF ends one line. |
| Text.SplitLinesLf | modules/fuzz_tester/gan_model.py:31 | A LF ends one line. |
| Text.SplitLinesCr | modules/fuzz_tester/gan_model.py:31 | A CR not followed by LF also ends one line. |
| Text.SplitUnlines | modules/fuzz_tester/hypothesis_fuzz.py:85-89 | Lines without line breaks, each written followed by a newline, read back with universal newlines as exactly those lines. |
| Text.AbsentInLines | modules/fuzz_tester/generalization_tester.py:15 | A text without a marker has no line containing it. |
| GanModel.Step | modules/fuzz_tester/gan_model.py:31-51 | A sending line opens a new session. A transmitted line keeps the flag. Output grows only at a closing or sleeping line of an anomalous session, by that session's lengths. |
| GanModel.RunAppend | modules/fuzz_tester/gan_model.py:31-51 | Reading two line runs is reading the first, then the second from where it stopped. |
| GanModel.OutputGrows | modules/fuzz_tester/gan_model.py:43-49 | The loaded cases only grow as lines are read. |
| GanModel.NoOutcomeNoOutput | modules/fuzz_tester/gan_model.py:37-49 | Without any `[Anomaly]` or `[Exception]` line, nothing is loaded. |
| GanModel.CutOffSession | modules/fuzz_tester/gan_model.py:32-34 | A new `Sending` line discards an unfinished session. |
| GanModel.NoEndNoOutput | modules/fuzz_tester/gan_model.py:40-49 | Without closing or sleeping lines, nothing is loaded. |
| GanModel.LoadUnreadable | modules/fuzz_tester/gan_model.py:52-55 | A missing or unopenable file loads nothing, and a read error keeps what was read before it. |
| GanModel.EmitSession | modules/fuzz_tester/gan_model.py:43-51 | The inner loop appends the lengths of the session's transmitted lines, in order. |
| GanModel.LoadFuzzData | modules/fuzz_tester/gan_model.py:23-58 | The loader's loop returns `LoadSpec` of the file. |
| GanModel.TrainingData | modules/fuzz_tester/gan_model.py:84-87 | Empty data is replaced by the fallback `[10, 20, 30, 40, 50]`, other data is used as is. |
| GanModel.CaseLength | modules/fuzz_tester/gan_model.py:143 | `max(1, int(val))` is at least 1 and at least the prediction, and it is one of the two. |
| GanModel.SampleLengths | modules/fuzz_tester/gan_model.py:142-143 | One length per prediction, in order. |
| GanModel.GanTailAscii | modules/fuzz_tester/gan_model.py:145 | The fixed request tail is 64 ASCII characters. |
| GanModel.GanFrame | modules/fuzz_tester/gan_model.py:144-150 | A request with an n-character payload is n+69 bytes. |
| GanModel.GanLogStep | modules/fuzz_tester/gan_model.py:141-152 | Each case appends its four lines and a blank line to the output. |
| GanModel.GenerateTestCases | modules/fuzz_tester/gan_model.py:133-160 | No generator writes nothing. Otherwise each prediction yields a payload of its length, and the file holds their records in order. |
| Replay.TransmittedLength | modules/fuzz_tester/hypothesis_fuzz.py:86 | A Hypothesis `Transmitted` line whose repr holds no `bytes:` reads back as the length of the raw bytes. |
| Replay.MarkerInReprLosesLength | modules/fuzz_tester/gan_model.py:44-49 | A repr that holds `bytes:` loses the length: the text after its last `bytes:` lies inside the repr and, not opening with `b`, is no literal. |
| Replay.HeaderMarkerLosesLength | modules/fuzz_tester/gan_model.py:44-49 | The eight bytes of `bytes: x`, which a generated header can hold, give a `Transmitted` line with no length. |
| Replay.AnomalyLineKind | modules/fuzz_tester/hypothesis_fuzz.py:87 | An `[Anomaly]` line whose reason phrase holds neither `Transmitted` nor the Sending marker sets the anomaly flag of the loader. |
| Replay.ExceptionLineKind | modules/fuzz_tester/hypothesis_fuzz.py:93 | An `[Exception]` line whose message holds neither `Transmitted` nor the Sending marker sets the anomaly flag of the loader. |
| Replay.ClosingLineKind | modules/fuzz_tester/hypothesis_fuzz.py:88 | The closing line ends a session for the loader. |
| Replay.SleepingLineKind | modules/fuzz_tester/hypothesis_fuzz.py:89 | The sleeping line also ends a session for the loader. |
| Replay.RecordReadBack | modules/fuzz_tester/hypothesis_fuzz.py:85-89 | A logged record adds its length twice, once at the closing line and once at the sleeping line, when its repr holds neither `bytes:` nor the Sending marker and its reason phrase or exception message holds no line break, `Transmitted` or Sending marker. |
| Replay.LogReplay | modules/fuzz_tester/hypothesis_fuzz.py:69-96 | A whole Hypothesis log of such records loads every logged case's length twice, in case order. |
| Replay.LoadHypothesisLog | modules/fuzz_tester/gan_model.py:23-58 | `load_fuzz_data` on a Hypothesis log file, read back with universal newlines, returns each anomalous request's length twice, when every record is of that kind. |
| Replay.RecordNoBreaks | modules/fuzz_tester/hypothesis_fuzz.py:85-89 | No line of a record holds a line break when its outcome text holds none. |
| Replay.LogNoBreaks | modules/fuzz_tester/hypothesis_fuzz.py:69-96 | No line of a Hypothesis log holds a line break when no outcome text does. |
| Replay.ReadLogLines | modules/fuzz_tester/gan_model.py:31 | Read back with universal newlines, such a log file gives exactly the lines written to it. |
| Replay.BrokenReasonSplits | modules/fuzz_tester/hypothesis_fuzz.py:87 | A reason phrase holding a bare CR reads back as two lines: the outcome line up to the CR, then the text after it as a line of its own. |
| Replay.MarkedOutcomeLine | modules/fuzz_tester/gan_model.py:32-39 | An outcome line whose text holds `Transmitted` or the Sending marker is taken by an earlier branch than the anomaly test. |
| Replay.RunKeepsClear | modules/fuzz_tester/gan_model.py:31-49 | Lines that open a session, carry `Transmitted`, end a session plainly or are blank leave a clear anomaly flag clear and emit nothing. |
| Replay.MarkedOutcomeLoadsNothing | modules/fuzz_tester/gan_model.py:31-49 | A record whose reason phrase or exception message holds `Transmitted` or the Sending marker never sets the flag, so `load_fuzz_data` takes nothing from it. |
| Replay.LogScan | modules/fuzz_tester/deepseek_generator.py:37-47 | Scanning a Hypothesis log of such records line by line yields each logged case's length once. |
| Replay.GanLogKeepsFlag | modules/fuzz_tester/gan_model.py:149-152 | No line of the GAN output sets the anomaly flag. |
| Replay.GanLogLoadsNothing | modules/fuzz_tester/gan_model.py:37-42 | `load_fuzz_data` on the GAN's own output file, read back with universal newlines, returns nothing. |
| Replay.GanLogNoBreaks | modules/fuzz_tester/gan_model.py:149-152 | No line of the generated-case file holds a line break. |
| Replay.ReadGanLog | modules/fuzz_tester/gan_model.py:149-152 | Read back with universal newlines, the generated-case file gives exactly the lines written to it. |
| DeepSeekGenerator.ResolveLogPath | modules/fuzz_tester/deepseek_generator.py:14-19 | A given path is used as is. Otherwise the default is `fuzz_output/fuzz.log`. |
| DeepSeekGenerator.DefaultLogIsNotHypothesisLog | modules/fuzz_tester/deepseek_generator.py:14-19 | The default training log is not the log Hypothesis writes by default. |
| DeepSeekGenerator.JitteredNear | modules/fuzz_tester/deepseek_generator.py:56 | A drawn length is at least 1 and within 2 of a learned length. |
| DeepSeekGenerator.SavedStep | modules/fuzz_tester/deepseek_generator.py:75-78 | Each case appends its request and a newline to the saved text. |
| DeepSeekGenerator.Generator.constructor | modules/fuzz_tester/deepseek_generator.py:9-12 | A generator starts with its model name and nothing learned. |
| DeepSeekGenerator.Generator.TrainFromLog | modules/fuzz_tester/deepseek_generator.py:28-49 | The learned lengths are those of the log's `Transmitted … bytes:` lines. A missing file gives none. An unopenable or failing file raises after clearing. |
| DeepSeekGenerator.Generator.Generate | modules/fuzz_tester/deepseek_generator.py:51-56 | Exactly n lengths: each in 5..100 when nothing was learned, otherwise a learned length jittered by -2..2 and floored at 1. |
| DeepSeekGenerator.Generator.BuildFuzzRequest | modules/fuzz_tester/deepseek_generator.py:58-68 | The payload has the requested length, in letters and digits, and the request text frames it. |
| DeepSeekGenerator.Generator.WriteRequests | modules/fuzz_tester/deepseek_generator.py:74-78 | One request per length, in order, each payload of its length. |
| DeepSeekGenerator.Generator.SaveGeneratedCases | modules/fuzz_tester/deepseek_generator.py:70-81 | The cases go to `generated_output/generated_cases.log`, n of them, with lengths as `generate` promises and text as written. |
| DeepSeekGenerator.RequestColonSafe | modules/fuzz_tester/deepseek_generator.py:58-68 | No `:` in a generated request is followed by `s`, so it never contains `bytes:`. |
| DeepSeekGenerator.SavedColonSafe | modules/fuzz_tester/deepseek_generator.py:70-81 | The whole saved file never contains `bytes:`. |
| DeepSeekGenerator.SavedHasNoCandidates | modules/fuzz_tester/deepseek_generator.py:70-81 | No line of the saved file is a `Transmitted … bytes:` line. |
| DeepSeekGenerator.SavedLearnsNothing | modules/fuzz_tester/deepseek_generator.py:28-49 | Training on DeepSeek's own output learns nothing. |
| DeepSeekGenerator.LearnsOncePerCase | modules/fuzz_tester/deepseek_generator.py:37-47 | On a Hypothesis log file of such records, read back with universal newlines, DeepSeek learns each logged case's length once, and `load_fuzz_data` yields each twice. |
| Generalization.SpaceEnd | modules/fuzz_tester/generalization_tester.py:17 | `\s+` consumes exactly the maximal run of blanks. |
| Generalization.LastQuote | modules/fuzz_tester/generalization_tester.py:17 | The greedy `.*["']` ends at the last quote before the line end. |
| Generalization.MatchAt | modules/fuzz_tester/generalization_tester.py:17 | A match is `b`, a quote, then anything up to a final quote, on one line. |
| Generalization.SearchSkip | modules/fuzz_tester/generalization_tester.py:17 | The search passes over positions without `bytes:`. |
| Generalization.FirstMarker | modules/fuzz_tester/generalization_tester.py:17 | The first `bytes:` after a prefix without `y` is at the end of that prefix. |
| Generalization.MatchAfterMarker | modules/fuzz_tester/generalization_tester.py:17 | After `bytes:` and a space, a bytes literal is matched whole. |
| Generalization.SearchAfterMarker | modules/fuzz_tester/generalization_tester.py:17 | The search finds the literal following the first `bytes:`. |
| Generalization.ExtractLine | modules/fuzz_tester/generalization_tester.py:16-25 | A line yields at most one payload. |
| Generalization.ExtractAll | modules/fuzz_tester/generalization_tester.py:15-25 | No more payloads than lines. |
| Generalization.ExtractStep | modules/fuzz_tester/generalization_tester.py:15-25 | The payloads grow line by line. |
| Generalization.ExtractPayloadsFromLog | modules/fuzz_tester/generalization_tester.py:8-26 | The loop returns `ExtractSpec` of the file. A missing, unopenable or failing file raises. |
| Generalization.ExtractAppend | modules/fuzz_tester/generalization_tester.py:15-25 | The payloads of two line runs concatenate. |
| Generalization.NoCandidatesNoPayloads | modules/fuzz_tester/generalization_tester.py:16 | Lines without `Transmitted … bytes:` give no payload. |
| Generalization.NoYNoCandidate | modules/fuzz_tester/generalization_tester.py:16 | A line without `y` cannot contain `bytes:`. |
| Generalization.GanOtherLines | modules/fuzz_tester/gan_model.py:149-152 | The GAN's sending, closing, sleeping and blank lines give no payload. |
| Generalization.SearchTransmitted | modules/fuzz_tester/generalization_tester.py:17-20 | On a `Transmitted` line the search finds exactly the repr of the bytes. |
| Generalization.ExtractTransmitted | modules/fuzz_tester/generalization_tester.py:16-23 | A `Transmitted` line of the UTF-8 of a text gives that text back. |
| Generalization.ExtractCaseRecord | modules/fuzz_tester/generalization_tester.py:16-23 | A GAN case record gives exactly its request. |
| Generalization.GanLogReplay | modules/fuzz_tester/generalization_tester.py:8-26 | The GAN log yields its requests, in order. |
| Generalization.GanOutputReplay | modules/fuzz_tester/generalization_tester.py:8-26 | Extraction from the GAN output file, read back with universal newlines, succeeds and yields its requests, one per payload, in order. |
| Generalization.DeepSeekOutputYieldsNothing | modules/fuzz_tester/generalization_tester.py:8-26 | Extraction from the DeepSeek output yields no payload. |
| Generalization.CountSuspicious | modules/fuzz_tester/generalization_tester.py:61 | The count is at most the number of results. |
| Generalization.CountAll | modules/fuzz_tester/generalization_tester.py:61 | The count equals the number of results if and only if every result is suspicious. |
| Generalization.CountNone | modules/fuzz_tester/generalization_tester.py:61 | The count is 0 if and only if no result is suspicious. |
| Generalization.TestGeneratedCases | modules/fuzz_tester/generalization_tester.py:29-63 | One result per extracted payload, in order. A reply records its status and time and is suspicious at 500 or more. An exception records ERROR and is suspicious. The count is the suspicious ones. |
| PyBytes.QuoteFor | modules/fuzz_tester/hypothesis_fuzz.py:86 | `repr` quotes with `"` if and only if the bytes hold `'` and no `"`. |
| PyBytes.EscapeByte | modules/fuzz_tester/hypothesis_fuzz.py:86 | A byte is shown as itself when printable, otherwise escaped, always in printable ASCII. |
| PyBytes.Repr | modules/fuzz_tester/hypothesis_fuzz.py:86 | The repr is `b`, a quote, the escaped bytes and the same quote. |
| PyBytes.ReprPrintable | modules/fuzz_tester/hypothesis_fuzz.py:86 | The repr is printable ASCII. |
| PyBytes.EvalLiteral | modules/fuzz_tester/gan_model.py:47-48 | An evaluated literal starts `b`, is quoted at both ends, and is shorter than its text. |
| PyBytes.DecodeEscapeByte | modules/fuzz_tester/gan_model.py:48 | Evaluating an escaped byte gives that byte. |
| PyBytes.DecodeEscapeAll | modules/fuzz_tester/gan_model.py:48 | Evaluating an escaped run gives the bytes back. |
| PyBytes.EvalRepr | modules/fuzz_tester/gan_model.py:46-49 | `eval(repr(b)) == b` for every byte string. |
| PyBytes.EvalReprLength | modules/fuzz_tester/gan_model.py:48-49 | `len(eval(repr(b))) == len(b)`. |
| Utf8.EncodeChar | modules/fuzz_tester/hypothesis_fuzz.py:78 | A character encodes to 1..4 bytes, and to its own code if and only if it is ASCII. |
| Utf8.Encode | modules/fuzz_tester/hypothesis_fuzz.py:78 | The encoding has between one and four bytes per character. |
| Utf8.EncodeAppend | modules/fuzz_tester/hypothesis_fuzz.py:78 | The encoding of a concatenation is the concatenation of the encodings. |
| Utf8.DecodeIgnore | modules/fuzz_tester/generalization_tester.py:22 | Decoding with `errors="ignore"` gives at most one character per byte. |
| Utf8.DecodeEncodeChar | modules/fuzz_tester/generalization_tester.py:22 | Decoding the encoding of a character gives it back, whatever follows. |
| Utf8.DecodeEncode | modules/fuzz_tester/generalization_tester.py:22 | Decoding the UTF-8 encoding of a text gives the text back. |
| Utf8.EncodeAscii | modules/fuzz_tester/gan_model.py:146 | An ASCII text encodes byte for character. |
| Pipeline.EscalateDepth | main.py:45-63 | The depth loop computes `Escalate`. |
| Pipeline.EscalationFrom | main.py:45-63 | The loop tries depths 1, 2, … in order. It stops at the first depth whose log yields anomalies, and without anomalies it tries every depth up to the maximum. |
| Pipeline.EscalationStops | main.py:45-63 | For either engine, the depths tried are 1..k. Anomalies mean depth k was the first to yield them, from a truthy log. No anomalies means all depths up to the maximum were quiet. |
| Pipeline.BoofuzzNeverEscalates | main.py:48-63 | With boofuzz the directory path is loaded, nothing is found, and every depth is tried. |
| Pipeline.GenerateWithGan | main.py:66-70 | The GAN writes ten cases whose lengths come from its predictions on the anomalies or the fallback. |
| Pipeline.GenerateWithDeepSeek | main.py:71-76 | No cases if and only if `train_from_log` raises on its default log (it exists but cannot be opened, or reading it fails). Otherwise ten cases drawn from what it learned. |
| Pipeline.GenerateCases | main.py:65-78 | The training raises if and only if the choice is 3 and `train_from_log` raises. Cases are generated if and only if the choice is 2 or 3 and nothing raised, by the generator chosen. |
| Pipeline.Dirname | main.py:85 | The directory is no longer than the path. |
| Pipeline.DirnameOfJoin | main.py:85 | The directory of `join(dir, name)` is `dir`. |
| Pipeline.ResultsBesideCases | main.py:81-85 | The results go to `generated_output/generalization_results.json`. |
| Pipeline.Generalize | main.py:80-90 | The generalization test runs if and only if the case file exists, and its results are those of every extracted request. |
| Pipeline.HandlePort | main.py:36-92 | The service is known. Fuzzing runs if and only if the scan found nothing. The port aborts the run if and only if fuzzing left a truthy log and anomalies, the choice is 3 and the training raises. Otherwise generation runs if and only if there were such anomalies and the choice is 2 or 3. Generalization runs if and only if the file exists. |
| Pipeline.BoofuzzNeverGenerates | main.py:45-70 | With boofuzz, no case is ever generated or replayed. |
| Pipeline.DeepSeekGeneralizesNothing | main.py:71-90 | After DeepSeek generation, the generalization test has no results. |
| Pipeline.GanThenGeneralize | main.py:66-84 | After GAN generation, the test replays exactly the ten generated requests, in order. |
| Pipeline.GanGeneralizesEveryCase | main.py:65-90 | For any handled port with GAN generation, the generalization results are exactly the ten GAN requests, indexed 0..9. |
| Pipeline.KnownPorts | main.py:30-34 | No more known ports than open ports. |
| Pipeline.KnownPortsStep | main.py:30-34 | A port joins the known ports exactly when its service is not "Unknown". |
| Pipeline.SkipPort | main.py:31-34 | A port of unknown service adds neither outcome nor report. |
| Pipeline.AddPort | main.py:36-100 | A port of known service adds its outcome, and a report with an empty case list unless it aborted the run, which then stops. |
| Pipeline.KnownPortsAppend | main.py:30-34 | The known ports of two runs of ports concatenate. |
| Pipeline.KnownPortsPrefix | main.py:30-34 | The known ports of the ports scanned so far come first among all known ports. |
| Pipeline.StoppedByTraining | main.py:71-74 | A port aborts the run only when the choice is 3 and DeepSeek's training raises. |
| Pipeline.VisitPort | main.py:30-100 | One pass of the port loop keeps the outcomes in scan order, all handled; it stops the loop exactly when the port aborted. |
| Pipeline.LoopEnd | main.py:30-100 | When the loop ends, the outcomes are the known ports in order: all of them, or a prefix ending at a port whose DeepSeek training raised. |
| Pipeline.RunMain | main.py:17-100 | No open ports means no work. Otherwise the ports of known service are handled in scan order with the chosen depth and reported with `fuzz_cases == []`, until one aborts. The run then ends on that port, without its report and without later ports. Only a raising DeepSeek training aborts it. |

## Left out

- Sockets, TLS and HTTP requests are left out; the network is a parameter. The exchange of `detect_http_service` is an `Attempt`. Hypothesis' replies are an `Outcome` per trial. The generalization replies are a function from index and payload.
- The exploit probes of `modules/exp_tester.py` are not part of this model. The generic probes are booleans and the registry probes are a `ProbeResult` per description.
- `modules/port_scanner.py`, `utils/logger.py`, `utils/report_generator.py` and the prompts of `utils/cli_selector.py` are not part of this model. The open ports and the choices are inputs, and a report is the value handed to `generate_report`.
- `load_cve_database` reads a JSON file and is left out; `main` never calls it.
- CveQuery.FilterCvesByVersion: a list description is modelled by its string elements and an object description by its string keys; elements that are not strings are left out of that list, since they never equal the stripped version. A description that is some other Python object, and the exception's type and message, are not modelled: `raised` only says that the call raises.
- `train_gan`, `build_generator` and `build_discriminator` (TensorFlow training) are left out. A trained generator is the function `tools.gan` from the training data to its ten predictions. Predictions are integers, so the float-to-int truncation of `int(val[0])` is not modelled.
- Random choices (Hypothesis strategies, `random.choices`, `random.randint`, `random.choice`) are nondeterministic choices within the bounds the source gives. No distribution is modelled.
- Time stamps are parameters made of digits and `[`, `-`, `:`, `,` and blanks, the characters of `strftime("[%Y-%m-%d %H:%M:%S,%f]")[:-3]`, which is `[YYYY-MM-DD HH:MM:SS,ffff` (four fraction digits, no closing bracket); their exact layout is not modelled; `time.sleep` and `round(time.time() - start, 3)` are left out. The response time is a whole number of milliseconds.
- `run_method_fuzz` and the boofuzz `Session` engine, which mutates the primitives, are left out. The model keeps the request definition, the logger and the worker list. The nine `Process` workers run concurrently in the source; here they are listed, not run, and interleaved appends to `fuzz.log` are not modelled.
- `os.makedirs`, `os.path.abspath` and the JSON dump of the generalization results are left out. Paths are joined text, `abspath` is the identity, and the results are returned with their path.
- File contents are inputs (`LogFile`): missing, unopenable, or lines with a flag for a read error part-way through. Python's universal newlines are modelled by `SplitLines` on CR, LF and CRLF. A file the pipeline writes itself is read back as `SplitLines` of the lines written, each followed by a newline (`Unlines`).
- Console output and `logger` messages are left out, except the lines boofuzz's `CustomLogger` prints, which it models.
- PyBytes.EvalLiteral: only a single `b'…'` or `b"…"` literal is evaluated. Its simple, hex and octal escapes are decoded, and an unknown escape keeps its backslash, as in Python. Any other expression that `eval` would accept counts as a failed evaluation: adjacent literals, `+`, or a string prefix other than `b`. The source only evaluates text that starts with `b'` or `b"`.
- ServiceDetector.DetectHttpService: `recv(4096)` is whatever bytes the attempt returned; the 4096-byte limit is not enforced.
- HypothesisFuzz.RunHypothesisFuzz: the number of trials Hypothesis runs is an input bounded by `num_examples * depth`, and the strategies' domains are a precondition (`InDomain`), as Hypothesis guarantees them.
- HypothesisFuzz.RunHypothesisFuzz: the `deadline=3000` setting is not modelled. A trial slower than three seconds makes Hypothesis raise `DeadlineExceeded` (or `Flaky`) out of `fuzz_case()`, which `main` does not catch, so the run would end there; here every trial completes.
- Replay.RecordReadBack: proved only for records whose repr holds neither `bytes:` nor `Info: Sending fuzz case` and whose reason phrase or exception message holds no CR or LF, no `Transmitted` and no `Info: Sending fuzz case` (`ReadsBack`). The source's own inputs reach the other cases: header values and bodies can spell `bytes:`, the server writes the reason phrase, and a `RequestException` message carries the URL, whose query can spell `Transmitted`. A `bytes:` in the repr loses the record's length (`Replay.MarkerInReprLosesLength`, `Replay.HeaderMarkerLosesLength`); `Transmitted` or the Sending marker in the outcome text loses the whole record (`Replay.MarkedOutcomeLoadsNothing`); an interior CR splits the outcome line (`Replay.BrokenReasonSplits`), and a piece holding `Sleeping` or `Closing connection` would make `load_fuzz_data` emit the session again.
- Replay.LogReplay: proved only for logs whose every record meets the conditions given for `Replay.RecordReadBack`, for the reasons given there.
- Replay.LoadHypothesisLog: proved only for logs whose every record meets the conditions given for `Replay.RecordReadBack`, for the reasons given there.
- Text.ParseInt: only the ASCII digits 0-9 are accepted. Python's `int()` also accepts every other Unicode decimal digit (category Nd), so a typed `５` (U+FF15) is 5 in the source and rejected here.
- DepthSelector.SelectMaxDepth: relies on the ASCII-only `Text.ParseInt`, so a depth typed in other decimal digits gives the default 3 here, where the source returns that depth.
- Pipeline.RunMain: the only exception modelled as ending `main` is one raised by DeepSeek's `train_from_log`. Others that `main` does not catch either, such as a Hypothesis deadline or a failing write of the generated cases, are not modelled.
- Replay.LogScan: proved only for logs whose every record meets the conditions given for `Replay.RecordReadBack`; a repr holding `bytes:` also loses the length DeepSeek would learn from it.
- DeepSeekGenerator.LearnsOncePerCase: proved only for logs whose every record meets the conditions given for `Replay.RecordReadBack`.
- Transcript.TransmittedCount: proved only for bytes whose repr holds no `bytes:`; otherwise the length is lost (`Replay.MarkerInReprLosesLength`).
- Replay.TransmittedLength: proved only for bytes whose repr holds no `bytes:`, for the reason given for `Transcript.TransmittedCount`.
- Replay.AnomalyLineKind: proved only for reason phrases without `Transmitted` or `Info: Sending fuzz case`; with either, the line is taken by an earlier branch and sets no flag (`Replay.MarkedOutcomeLine`).
- Replay.ExceptionLineKind: proved only for messages without `Transmitted` or `Info: Sending fuzz case`, for the reason given for `Replay.AnomalyLineKind`.
