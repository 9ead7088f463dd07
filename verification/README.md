# pprof-operator: a verified model

The pprof-operator injects a profiling sidecar into pods. An admission webhook turns a Profiler
resource and a pod's annotations into a container with an environment; the sidecar process parses
that environment, polls the container's CPU and memory usage, and uploads profiles when a threshold is
crossed. This project models the parts with real behaviour in Dafny and proves what they guarantee.

| file | what it models |
|---|---|
| `Cooldown.dfy`, `Monitor.dfy`, `MonitorRuns.dfy` | the sidecar's monitoring loop with its five-minute CPU cooldown, and whole runs of it |
| `Collector.dfy`, `Timestamp.dfy` | one profiling attempt: its steps, counters, request credentials and object key |
| `SidecarEnv.dfy`, `SidecarBuilder.dfy`, `SidecarConfig.dfy`, `ConfigRoundTrip.dfy`, `Decimal.dfy` | settings printed by the operator and parsed back by the sidecar |
| `EndToEnd.dfy` | properties that span operator, start-up and loop |
| `Precedence.dfy` | which annotation, resource field or default wins, stated on their own names and values |
| `Admission.dfy`, `AdmissionRuns.dfy`, `AdmissionConcurrent.dfy` | the admission handler, sequences of calls, concurrent calls |
| `DeepCopy.dfy`, `Api.dfy` | the generated deep copies, on a heap, and the values they copy |
| `Kubelet.dfy`, `Percent.dfy` | the stats lookup and the percentages compared with thresholds |
| `Uncomment.dfy` | the text rewrite of the test helper UncommentCode |

Modelling choices:

- A run of the loop is a sequence of ticks: the time the loop reads (nanoseconds, non-decreasing where a
  property needs it, as Go's monotonic clock is), the reading or its failure, and what the outside world would
  answer to an attempt at that tick. Tick times and file-name stamps lie on one clock.
- Calls to the operating system, the network, the cluster and the object store are answers given as data.
- Environment variables are an enumeration whose constructors are the variables' names, because both programs
  spell them alike; annotation keys are the strings of `internal/webhook/v1/constants.go`.
- Secret and field references go through an abstract resolver. Variables the builder does not set read as empty.
- On the heap a Go struct is a datatype with references for its pointers, a pointer is a `Cell`, a slice an
  array. Methods without a `modifies` clause cannot change the structure they copy.
- The ghost sequence `attempts` of the sidecar's metrics records each call of CollectAndUploadProfile; the program
  keeps no such record.
- The modules that build and parse settings share constants and small functions. `Precedence.dfy`, and the lemmas
  named `…Exactly`, `…Tells` or `…FirstError`, restate the outcomes on raw fields and literal values, so that no
  shared definition is its own only witness.
- Percentages are real numbers with the infinite and not-a-number results of a zero divisor as separate cases.

What the proofs bring out about the code:

- The cooldown restarts after failed attempts too, and the loop still makes as many CPU attempts as any
  schedule with the same spacing could.
- A negative `monitoringPeriod` passes through both programs and stops the sidecar at `NewTicker`
  (`ConfigRoundTrip.LoopStartsExactly`).
- Heap profiles have no cooldown, and any two profiles of one kind named within the same second share an object
  key (`Collector.SameKeyExactly`); CPU profiles are safe while a file is named at most 299.000000001 s after its
  tick, and not beyond (`MonitorRuns.CPUKeysDistinct`, `MonitorRuns.LongerDelayCollides`).
- Admitting an enabled pod that already has the sidecar adds a second one; the removal after that takes both
  out and lowers the gauge by one (`AdmissionRuns.SecondInjectionDrifts`). A patch that fails to encode moves the
  gauge without the pod. Over every run these two are all that makes the gauge drift (`AdmissionRuns.DriftIsExcess`).
- A profile that was collected and then fails at the AWS configuration or at opening the file is in no upload
  counter (`MonitorRuns.ProfilesAreConserved`). Errors of the deferred closes never reach the caller, because the
  variable they set is shadowed or no longer read; only the removal of the temporary directory does.
- The CPU trigger is the documented comparison for limits up to 9223372036854 milli-CPU and for no other
  (`Percent.CPUTriggerAsDocumentedExactly`): past that the nano-CPU product wraps. One milli-CPU further no busy
  container fires it (`Percent.CPUTriggerLostPastTheBound`); at 18446744073710 it fires on almost no usage
  (`Percent.CPUTriggerTooEarlyFurtherOn`).
- `DeepCopyInto` with one struct as source and target would replace what its pointer points to by a zero value
  (`DeepCopy.BasicAuthDeepCopyInto` and its two callers); the generated code never calls it so.

Where documentation and code differ, the model follows the code: the sidecar's fallback region is `us-west-2`
(both READMEs say `us-east-1`), the label of CPU profiles is `profile` (the README says `cpu`), any value of the
enable annotation other than `false` enables (the README asks for `true`), and the profile duration
only sets a client timeout: it is not sent with the request.

## Model

| member | source | states |
|---|---|---|
| Cooldown.GreedyIsOptimal | sidecar/cmd/main.go:550-562 | among all sets of over-threshold ticks with pairwise gaps over five minutes, the one the loop picks is largest |
| Cooldown.GreedyIsUnique | sidecar/cmd/main.go:550-562 | the picked set is the only one that is hot, spaced, and leaves out a hot tick only within five minutes after a pick |
| Monitor.MonitorResourceUsage | sidecar/cmd/main.go:496-589 | the loop with its local `lastCPUTime` calls CollectAndUploadProfile for exactly the attempts of the step-by-step replay, in its order, and leaves the metrics as it does |
| Monitor.LogIsAttempts | sidecar/cmd/main.go:552-586 | the CPU and the heap attempts of a replayed run are the CPU and the heap entries of its log |
| MonitorRuns.LoopIsOptimal | sidecar/cmd/main.go:514-570 | in every run no allowed choice of ticks has more members than the loop has CPU attempts |
| MonitorRuns.LoopIsTheMaximalChoice | sidecar/cmd/main.go:514-570 | the attempted ticks are exactly the choice of hot ticks, pairwise more than 300 seconds apart, whose left-out hot ticks all come at most 300 seconds after a chosen one |
| MonitorRuns.TickAttemptsExactly | sidecar/cmd/main.go:550-562 | a tick starts a CPU attempt exactly when it is hot and no tick at most 300 seconds before it started one |
| MonitorRuns.AttemptsInOrder | sidecar/cmd/main.go:514-586 | attempts follow the order of the ticks, the CPU attempt first within one |
| MonitorRuns.HigherThresholdFewerAttempts | sidecar/cmd/main.go:536-562 | raising the CPU threshold never gives more CPU attempts on the same run |
| MonitorRuns.AttemptsAreRateLimited | sidecar/cmd/main.go:550-562 | k >= 2 CPU attempts in a window, failed ones included, need more than (k - 1) * 300 s of it |
| MonitorRuns.OverloadIsSampled | sidecar/cmd/main.go:514-570 | under constant overload the next attempt comes more than 300 seconds later, at most 300 seconds plus one tick gap, and none in between |
| MonitorRuns.HeapAttemptsExactly | sidecar/cmd/main.go:572-586 | heap attempts happen at every tick over the memory threshold and at no other |
| MonitorRuns.FailedTicksDoNotMatter | sidecar/cmd/main.go:520-529 | deleting all ticks with a failed reading leaves attempts, metrics and `lastCPUTime` unchanged |
| MonitorRuns.CPUAttemptsIgnoreTheRest | sidecar/cmd/main.go:550-586 | memory readings and attempt outcomes never change which ticks start a CPU attempt |
| MonitorRuns.HotTicksCounted | sidecar/cmd/main.go:543-545 | ThresholdExceeded for CPU is the number of hot ticks, and at least the number of CPU attempts |
| MonitorRuns.HeapAttemptsCounted | sidecar/cmd/main.go:546-586 | ThresholdExceeded for memory is the number of heap attempts |
| MonitorRuns.ProfileCounters | sidecar/cmd/main.go:388-420 | over every run each profile counter is the number of attempts that reached its stage |
| MonitorRuns.ProfilesAreConserved | sidecar/pkg/storage/s3.go:40-101 | generated profiles are the uploaded, the refused and the ones stranded before the upload request |
| MonitorRuns.CPUKeysDistinct | sidecar/cmd/main.go:293-402 | CPU profiles of one run have pairwise distinct object keys when each file is named within 299.000000001 s of its tick |
| MonitorRuns.LongerDelayCollides | sidecar/cmd/main.go:293-402 | with one nanosecond more some run writes two CPU profiles under one key |
| Collector.CollectAndUploadProfile | sidecar/cmd/main.go:268-427 | no error exactly when the URL is set and all ten calls succeed, else the error of the first failing call; counters follow the stage reached |
| Collector.FailsWithFirstError | sidecar/cmd/main.go:268-427 | the error relation names the first failing call in the order of the code, and holds of nothing exactly when every call succeeds |
| Collector.CountersFollowTheCalls | sidecar/cmd/main.go:388-420 | each counter moves by one exactly when the calls up to its stage succeed, and for the upload counters by the answer of the store |
| Collector.Scrape | sidecar/cmd/main.go:303-393 | the HTTP part succeeds exactly when the profile reached the file, whatever the deferred closes report |
| Collector.UploadToS3 | sidecar/pkg/storage/s3.go:36-102 | success and error counters move only once the object store has answered |
| Collector.SameKeyExactly | sidecar/cmd/main.go:293-402 | two attempts share an object key exactly when they are of one kind and named in the same second |
| Collector.KeyTells | sidecar/cmd/main.go:293-402 | a key is kind, pod, container and stamp, under prefix and pod if a prefix is set; its stamp reads back as the date POSIX counts as that second |
| Timestamp.StampInjective | sidecar/cmd/main.go:293-294 | the second-resolution stamp is the same exactly for the same second |
| Timestamp.StampReadsBack | sidecar/cmd/main.go:293 | a stamp, read at fixed places from its end, gives the date and time it was made from |
| Timestamp.CivilCountsBack | sidecar/cmd/main.go:293 | the date and time of a moment give back its Unix seconds by the formula of POSIX.1-2017, section 4.16 |
| Timestamp.CivilInRange | sidecar/cmd/main.go:293 | month, day of that month and time of day are in range, by the table of month lengths |
| Decimal.AtoiOfPrint | internal/webhook/v1/utility.go:33 | parsing a printed number gives it back for every int64 and fails for every other |
| Decimal.AtoiExactly | sidecar/cmd/main.go:92 | a text parses to a 64-bit integer exactly when it is an optional sign, leading zeros and the digits of that integer |
| Decimal.DigitAtPower | internal/webhook/v1/utility.go:33 | the printed text is positional, base ten |
| Decimal.TrimOfPaddedPrint | internal/webhook/v1/sidecar_manager.go:147 | a printed number survives any white space around it |
| Decimal.TrimOfPadded | internal/webhook/v1/sidecar_manager.go:55-56 | trimming takes off exactly the white space around a text |
| SidecarConfig.LoadConfig | sidecar/cmd/main.go:81-240 | the step-wise loader fails on the first missing requirement, in order, and otherwise returns every setting or its default |
| SidecarConfig.ThresholdsGovernTheirFields | sidecar/cmd/main.go:88-120 | setting a threshold variable changes its own field and no other, to the default when the text is not an integer |
| SidecarConfig.TimesGovernTheirFields | sidecar/cmd/main.go:122-213 | the same for the profile duration and the monitoring period |
| SidecarConfig.PeriodExactly | sidecar/cmd/main.go:206-213 | the conversion of seconds to a duration is exact precisely between -9223372036 and 9223372036 |
| SidecarBuilder.BuildProfilerSidecar | internal/webhook/v1/sidecar_manager.go:32-168 | an error exactly without target and containers; otherwise the intended name, image, environment and port |
| SidecarBuilder.BuildEnv | internal/webhook/v1/sidecar_manager.go:63-163 | the successive appends produce exactly the intended settings that have a value, in order |
| SidecarBuilder.GetAWSConfiguration | internal/webhook/v1/utility.go:65-134 | bucket, region and prefix always; credentials from the secret, else inline when both parts are set, else none |
| SidecarBuilder.GetScrapeTargetConfiguration | internal/webhook/v1/utility.go:146-167 | URL, type and login variables as intended; a login only for the Basic type |
| SidecarBuilder.BasicAuthUsesFirstUsable | internal/webhook/v1/utility.go:257-384 | the chain of early returns takes both login variables from the first usable of the four sources |
| SidecarBuilder.ReadMetricsPort | internal/webhook/v1/sidecar_manager.go:145-153 | the annotation's number when it is a port, else 8080 |
| ConfigRoundTrip.RoundTrip | sidecar/cmd/main.go:81-266 | for every Profiler, pod, resolver and host the sidecar loads exactly the intended settings or the stated error |
| ConfigRoundTrip.LoopStartsExactly | sidecar/cmd/main.go:502 | a sidecar that loads its settings reaches its loop exactly when the monitoring period is not negative |
| ConfigRoundTrip.NoDuplicateNames | internal/webhook/v1/sidecar_manager.go:63-163 | the built environment names no variable twice |
| ConfigRoundTrip.MetricsAddressNamesPort | internal/webhook/v1/sidecar_manager.go:155-163 | METRICS_ADDR parses back to the exposed container port, which is in 1..65535 |
| ConfigRoundTrip.PortAnnotation | internal/webhook/v1/sidecar_manager.go:145-153 | a number with any white space around it becomes the port when in range, else 8080 |
| Precedence.IdentityInForce | internal/webhook/v1/sidecar_manager.go:38-91 | the container watched is the annotated one, else the first; pod and namespace come from the pod, else the host name and `default` |
| Precedence.NumbersInForce | internal/webhook/v1/utility.go:23-60 | thresholds and period are the resource's, else 80, 80 and 15 s; the duration is 30 |
| Precedence.StorageInForce | internal/webhook/v1/utility.go:65-134 | bucket, region, prefix, endpoint and path style; AWS credentials by the secret's two keys, else inline, else none |
| Precedence.ScrapeURLInForce | internal/webhook/v1/utility.go:220-244 | the annotated URL, else the resource's, else none |
| Precedence.NoLoginUnlessBasic | internal/webhook/v1/utility.go:158-164 | without the type Basic, by annotation or else by resource, the request carries no login |
| Precedence.AnnotatedLoginIsSent | internal/webhook/v1/utility.go:305-309 | two annotated texts are the username and the password of the request |
| Precedence.AnnotatedSecretIsSent | internal/webhook/v1/utility.go:313-335 | without both, the annotated secret is read at its annotated keys, by default `username` and `password` |
| Precedence.ResourceLoginIsSent | internal/webhook/v1/utility.go:355-361 | without annotations, the resource's two texts are the username and the password |
| Precedence.ResourceSecretIsSent | internal/webhook/v1/utility.go:363-381 | without those, the resource's secret is read at its keys, with the same defaults |
| Precedence.NoSourceNoLogin | internal/webhook/v1/utility.go:257-294 | with none of the four sources the request carries no login |
| Precedence.DebugInForce | internal/webhook/v1/sidecar_manager.go:134-141 | LOG_LEVEL and DEBUG are set exactly for `true`, `1` or `debug` in any letter case |
| Precedence.ImageInForce | internal/webhook/v1/sidecar_manager.go:53-57 | the annotated image without white space around it, else the default image |
| Precedence.PortInForce | internal/webhook/v1/sidecar_manager.go:145-159 | the port the annotation writes, in any notation Atoi accepts, when in range, else 8080 |
| EndToEnd.RequestCarriesFirstUsableLogin | sidecar/cmd/main.go:318-329 | the request carries basic auth exactly when the type is Basic and the first usable source resolves to two non-empty values |
| EndToEnd.FirstUsableIsFirst | internal/webhook/v1/utility.go:257-294 | the source used is the earliest usable one, and none exactly when none is usable |
| EndToEnd.HigherSpecThresholdFewerAttempts | internal/webhook/v1/utility.go:23-40 | raising only the threshold in the Profiler never gives more CPU attempts on the same run of the sidecar built from it |
| EndToEnd.TickHotExactly | sidecar/cmd/main.go:536-537 | from the cluster's answers: a tick is hot exactly when 100 * usage >= threshold * limit, for the first reported usage, each limit settled by itself, and the resource's threshold or 80; a zero limit is exceeded by any use |
| Percent.TriggerExactly | sidecar/pkg/kubelet/metrics.go:162-163 | for every limit, positive, negative or zero, the integer comparison the float comparison amounts to |
| Percent.TriggerMonotone | sidecar/pkg/kubelet/metrics.go:162-163 | more usage or a smaller positive limit keeps a firing trigger firing, at every threshold |
| Percent.CPUTriggerExactly | sidecar/pkg/kubelet/metrics.go:162 | up to 9223372036854 milli-CPU the CPU trigger is the documented comparison at every usage and threshold |
| Percent.CPUTriggerAsDocumentedExactly | sidecar/pkg/kubelet/metrics.go:162 | the CPU trigger agrees with the documented comparison at every 64-bit usage and every percentage exactly when the limit is at most 9223372036854 milli-CPU |
| Percent.CPUTriggerLostPastTheBound | sidecar/pkg/kubelet/metrics.go:162 | one milli-CPU past that bound no busy container fires any trigger |
| Percent.CPUTriggerTooEarlyFurtherOn | sidecar/pkg/kubelet/metrics.go:162 | at 18446744073710 milli-CPU the trigger fires at full threshold on 448384 nano-cores |
| Kubelet.GetKubeletMetrics | sidecar/pkg/kubelet/metrics.go:53-178 | a reading over the effective limits of the first matching stats, or the error of the first failing check |
| Kubelet.ReadingExactly | sidecar/pkg/kubelet/metrics.go:94-163 | a reading is the first reported entry of pod and container over limits settled per resource: a non-zero own limit, else the node's entry, else zero |
| Kubelet.FailsWithFirstError | sidecar/pkg/kubelet/metrics.go:53-161 | the error is that of the first failing check in the order of the code, and there is a reading exactly when none fails |
| Kubelet.OutcomeIsDetermined | sidecar/pkg/kubelet/metrics.go:53-178 | the outcome relations allow one reading or one error, never both |
| Kubelet.FindStats | sidecar/pkg/kubelet/metrics.go:140-159 | the nested search with its flag finds the first match of the flattened report, or reports that there is none |
| Kubelet.OwnLimitsExactly | sidecar/pkg/kubelet/metrics.go:94-111 | only the first container with the name counts, and a limit it does not set is zero |
| Kubelet.LookupLimits | sidecar/pkg/kubelet/metrics.go:94-111 | the loop with its break computes those limits |
| Admission.PodMutator.Handle | internal/webhook/v1/pod_webhook.go:46-131 | response and counters follow the one decision the request allows |
| Admission.CountersMoveExactly | internal/webhook/v1/pod_webhook.go:62-172 | which requests attach and which remove, in terms of annotations, containers and listed Profilers; no other call moves a counter |
| Admission.AnswerExactly | internal/webhook/v1/pod_webhook.go:46-131 | which requests are answered 400, allowed unchanged or patched; all others with 500 |
| Admission.RemovalPatchExactly | internal/webhook/v1/pod_webhook.go:142-181 | a patch for a pod that is turned off keeps every other container as often as it occurs and no sidecar |
| Admission.InjectionPatchExactly | internal/webhook/v1/pod_webhook.go:93-131 | a patch for a pod that is turned on appends the sidecar of the first Profiler with the annotated name |
| Admission.PodMutator.RemoveSidecarIfExists | internal/webhook/v1/pod_webhook.go:142-181 | all sidecars go, the other containers stay in order, the counters move once |
| Admission.WithoutSidecar | internal/webhook/v1/pod_webhook.go:157-164 | the filter loop keeps exactly the other containers in order |
| Admission.OthersOfOne | internal/webhook/v1/pod_webhook.go:157-164 | a container by itself is kept exactly when its name is not `pprof-sidecar` |
| Admission.OthersOfConcat | internal/webhook/v1/pod_webhook.go:157-164 | the containers kept of a list are those kept of its parts, in order |
| Admission.OthersExactly | internal/webhook/v1/pod_webhook.go:157-164 | every other container is kept as often as it occurs, and no sidecar |
| Admission.HasSidecar | internal/webhook/v1/utility.go:12-19 | true exactly when some container has the name |
| AdmissionRuns.DecisionIsDetermined | internal/webhook/v1/pod_webhook.go:46-131 | a request admits one decision only |
| AdmissionRuns.CallsAreRun | internal/webhook/v1/pod_webhook.go:46-181 | any sequence of calls on one container list is a run of the five events |
| AdmissionRuns.ContainersOverRun | internal/webhook/v1/pod_webhook.go:62-181 | over any run the other containers never change; the sidecar count is given by the events |
| Admission.SidecarCountExactly | internal/webhook/v1/pod_webhook.go:157-164 | the sidecar count is the number of places in the list that hold one |
| AdmissionRuns.CountInClosedForm | internal/webhook/v1/pod_webhook.go:115-164 | the count is the injections since the last removal, plus the initial count when there was none |
| AdmissionRuns.InjectThenRemoveRestores | internal/webhook/v1/pod_webhook.go:115-164 | removing after injecting into a sidecar-free list restores list and gauge |
| AdmissionRuns.GaugeIsDifference | internal/webhook/v1/pod_webhook.go:119-172 | over any run the gauge moves by attached minus removed |
| AdmissionRuns.DriftIsExcess | internal/webhook/v1/pod_webhook.go:115-179 | over any run, lost patches included, the gauge leaves the number of sidecars by each removal's extra sidecars, plus the lost injections, minus the lost removals |
| AdmissionRuns.GaugeFollowsSidecarsExactly | internal/webhook/v1/pod_webhook.go:115-172 | over any run the gauge stays with the number of sidecars in the list exactly when the excess is zero; with no patch lost, exactly when every removal met a single sidecar, and otherwise it ends too high |
| AdmissionRuns.EnabledPodIsInjected | internal/webhook/v1/pod_webhook.go:84-131 | an enabling request for any pod with containers, sidecar or not, adds one more sidecar |
| AdmissionRuns.SecondInjectionDrifts | internal/webhook/v1/pod_webhook.go:115-172 | two enabling requests and one without the annotation, on any sidecar-free pod, give two sidecars and leave the gauge one too high |
| AdmissionConcurrent.GaugeAtEveryMoment | internal/webhook/v1/pod_webhook.go:119-172 | in every interleaving Active = Attached - Removed - handlers between the attach updates + handlers between the remove updates |
| AdmissionConcurrent.QuiescentIsSequential | internal/webhook/v1/pod_webhook.go:119-172 | with no handler mid-update the counters are those of a sequential execution |
| AdmissionConcurrent.CallIsItsTwoUpdates | internal/webhook/v1/pod_webhook.go:119-172 | a call's effect on the counters is its first and second update |
| DeepCopy.ProfilerDeepCopy | api/v1/zz_generated.deepcopy.go:84-100 | nil for nil; otherwise an equal value whose whole reach is new and disjoint from the original's |
| DeepCopy.EqualValuesExactly | api/v1/zz_generated.deepcopy.go:84-202 | two Profilers have equal values exactly when all fields agree and every pointer is nil in both or points to agreeing content |
| DeepCopy.ProfilerSpecDeepCopyInto | api/v1/zz_generated.deepcopy.go:143-160 | equal value, new reach, and two thresholds in two places even if the original shares one |
| DeepCopy.ScrapTargetDeepCopyInto | api/v1/zz_generated.deepcopy.go:195-202 | equal value and new reach through three levels of optional pointers, for two structs |
| DeepCopy.BasicAuthDeepCopyInto | api/v1/zz_generated.deepcopy.go:48-55 | equal value and new reach for two structs; called on one struct, the value survives exactly when no secret reference is set or it is zero |
| DeepCopy.ProfilerStatusDeepCopyInto | api/v1/zz_generated.deepcopy.go:173-182 | equal records in a new array; nil stays nil |
| DeepCopy.ProfilerListDeepCopyInto | api/v1/zz_generated.deepcopy.go:111-122 | equal items with new, pairwise disjoint reaches even when the originals share pointers |
| DeepCopy.ProfilerListDeepCopy | api/v1/zz_generated.deepcopy.go:125-132 | nil for nil; otherwise a new list with the same meta data and equal items, their reaches new and pairwise disjoint |
| DeepCopy.CopyOutlivesWritesToOriginal | api/v1/zz_generated.deepcopy.go:84-100 | after a copy, any writes to the original and what it reaches leave the copy with the original's old value |
| DeepCopy.OriginalOutlivesWritesToCopy | api/v1/zz_generated.deepcopy.go:84-100 | any writes to the copy and what it reaches leave the original with its value |
| DeepCopy.ListCopyOutlivesWritesToOriginal | api/v1/zz_generated.deepcopy.go:111-132 | the same for lists: the copied items keep the old values |
| DeepCopy.ListOriginalOutlivesWritesToCopy | api/v1/zz_generated.deepcopy.go:111-132 | the same for lists: the original items keep their values |
| Uncomment.UncommentCode | test/utils/utils.go:219-267 | only the first occurrence of the target changes, into its scanned lines with the prefix trimmed once each |
| Uncomment.UncommentOutcome | test/utils/utils.go:228-264 | any commented text becomes its lines up to the first too long one, each less one carriage return; nothing is written if the first already is too long |
| Uncomment.NotFoundExactly | test/utils/utils.go:219-242 | it fails exactly when the target occurs nowhere; an empty target leaves the file unwritten |
| Uncomment.JoinOfConcat | test/utils/utils.go:246-256 | lines are joined by one line feed and nothing else |
| Uncomment.UncommentRestoresExactly | test/utils/utils.go:228-264 | for every prefix without a line break, commenting out and uncommenting restores a text exactly when no line ends in a carriage return or reaches the scanner's limit, and no empty line is hidden by an empty prefix or by one ending in a carriage return |
| Uncomment.LineBreakPrefixStripsNothing | test/utils/utils.go:246-256 | a prefix with a line break is never stripped: the outcome is that of the empty prefix |

## Left out

- Kubernetes, S3 and HTTP clients, JSON, TLS, manager and signal set-up: library calls, present only as answers.
- Real time: ticks the ticker drops and the wall clock being stepped; a run is a given sequence of ticks.
- Kubelet expansion of `$(VAR)` inside environment values, and variables from the sidecar's own image.
- Rounding of the percentages: real arithmetic instead.
- `ObjectMeta`, `ListMeta` and `Time` deep copies: opaque values here. DeepCopyObject and the DeepCopy wrappers of
  the inner types add nothing to the copies they call.
- The path of the profile request after the scrape URL, which repeats the kind's name.
- The ResourceUsage gauges: set from each reading and read by nothing.
- `filepath.Join`: a function assumed to keep this sidecar's file names apart.
- nil and empty container lists are one empty sequence.
- Fields of containers that no modelled code reads (image pull policy, resources) are one opaque remainder.
- AuthType other than Basic and None: treated as any text, since the webhook does not validate it.
- Logging (except the two variables that switch it on), the reconciler, Prometheus registration, manifests,
  GetNonEmptyLines and the cluster helpers of the tests: nothing hard to prove.
