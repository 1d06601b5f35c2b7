# Runwake in Dafny

A model of the parts of Runwake that keep state or translate between forms, with
proofs of what they are for. Each file is one machine.

| file | models |
|---|---|
| `Text.dfy`, `Sorting.dfy`, `Wrappers.dfy` | string functions, string sorting and result types that the others share |
| `Selectors.dfy` | label selectors printed as text, read again and evaluated |
| `Attribution.dfy` | pod usage samples attributed to workloads and added up |
| `Fingerprint.dfy` | the text that identifies a pod's running containers |
| `ShellWords.dfy` | the two shell lexers, the two quoters and the remote command |
| `LexerAgreement.dfy` | where the two lexers agree, for every command |
| `CloudCommands.dfy` | the EKS and GKE forms, the option parser and the plans built from commands |
| `DockerLogs.dfy` | Docker's multiplexed log stream and the line assembler |
| `LogBuffer.dfy` | the browser's record buffer: dedupe, coalesce, merge, trim |
| `LogText.dfy` | the buffer's text and sequence numbers: nothing lost, invented or out of order |
| `LogView.dfy` | matches with context, and what appended records can reveal |
| `LogStream.dfy` | the browser's event handler, render scheduler and incremental renderer |
| `Fanout.dfy` | one viewer of a live stream and its in-band drop notices |
| `StreamLifecycle.dfy` | the manager of live streams: subscribe, unsubscribe, broadcast, end, linger |
| `Reconciler.dfy` | the pod-stream reconciler of both Kubernetes providers |
| `SnapshotCache.dfy` | the single-flight metrics cache with invalidation |
| `AgentQueues.dfy` | the agent hub's stream queues and terminal results |
| `AgentSessions.dfy` | the agent hub's attachments, open streams and command queues |

Code that changes things step by step is a method or a class, proved against a
specification function of the same file; what Runwake promises is proved about
those functions, for all inputs or all runs. Concurrent machines are runs of
atomic steps (a lock region, a receive, a timer) in any order.

## Where the code does not meet what one would expect

Each is stated with the condition under which the code does meet it.

- A selector's text form has blind spots: an empty `matchLabels` value on a
  missing label, and an empty value in an In or NotIn list on an empty label. A
  whole selector keeps its meaning exactly when, if its other terms hold, the
  blind spots that pass too much and those that pass too little come together or
  not at all (`Selectors.MeaningPreserved`, `Selectors.BlindSpotsReached`).
- The Go and JavaScript lexers differ on blank commands, on an escape that white
  space completes after Go has trimmed it, and on characters that are white space
  for one of them only, such as a no-break space (`LexerAgreement.LexersAgree`,
  `LexerAgreement.NoBreakSpaceDivides`, `LexerAgreement.TrimmingDivides`).
- A viewer whose channel is full and that has drops outstanding loses their place,
  though not their number, if its reader receives between the two sends of a
  broadcast. In any run the place is kept exactly when each record, as it is tried,
  finds the channel full or no drop outstanding (`Fanout.ExactIffOrderKept`,
  `Fanout.OrderCanBeLost`).
- Subscriber numbers start again with every stream, so a late unsubscribe can
  close another viewer's channel (`StreamLifecycle.LeaveClosesAnother`,
  `StreamLifecycle.LeaveAfterRestartClosesAnother`).
- A viewer can join a stream that is already cancelled: exactly when a timer once
  found the stream its key maps to unused (`StreamLifecycle.JoinFindsCancelledIff`,
  `StreamLifecycle.JoinCanFindCancelled`).
- A repeated gap notice breaks the correspondence between `seen` and the buffer.
  With one target the correspondence holds after every event exactly when every
  gap notice has a fresh key; with several, a notice whose key is in use is also
  harmless if both its records are trimmed at once (`LogBuffer.LedgerKept`,
  `LogBuffer.LedgerKeptByFreshNotices`, `LogBuffer.GapNoticeCanRepeat`).
- The renderer's placeholder can keep the words "Waiting for records…" after
  records arrived that do not match. Its words are right exactly when the view was
  rebuilt or they were right before; the rows are right in any case
  (`LogStream.ActivityStream.Render`, `LogStream.WaitingGoesStale`).
- A terminal result can be evicted by a later one for ever while records are
  still offered, so a reader has no bound on its receives but its capacity plus
  the number of those offers (`AgentQueues.ReaderCanStarve`, `AgentQueues.ReaderEnds`).
- A command can enter the queue of an older session after a reconnect, because
  `sendCommand` takes the queue under the lock and sends without it: exactly while
  a sender that took that queue before the reconnect still waits
  (`AgentSessions.OldCommandsOnlyShrink`, `AgentSessions.OldQueueFillsIff`,
  `AgentSessions.LateSendFillsOldQueue`).
- The context inputs admit fractions. Every shown position is then the index of a
  record exactly when the size before is whole or reaches past the first record
  from every match (`LogView.PositionsAreRecordsIff`, `LogView.HalfPosition`).

## Model

| member | source | states |
|---|---|---|
| Selectors.SelectorString | internal/kube/types.go:426-451 | The text is the sorted labels and the match expressions in order, joined by commas, whatever order the label map is traversed in |
| Selectors.SplitSelectorTerms | internal/kube/metrics.go:213-233 | The loop over `start` and `depth` cuts exactly at commas outside parentheses |
| Selectors.SelectorMatches | internal/kube/metrics.go:156-211 | True exactly when every term of the text passes |
| Selectors.SplitJoinTerms | internal/kube/metrics.go:213-233 | Splitting undoes joining for every list of terms with closed parentheses and no bare comma |
| Selectors.JoinSplit | internal/kube/metrics.go:213-233 | For every text, its terms joined again are the text |
| Selectors.LabelTermExact | internal/kube/metrics.go:199-203 | A printed `k=v` means the label requirement if and only if it is not an empty value against a missing label |
| Selectors.RequirementTermExact | internal/kube/metrics.go:164-184 | A printed In, NotIn, Exists or DoesNotExist means the requirement if and only if no empty list value meets an empty label |
| Selectors.SelectorTextReads | internal/kube/metrics.go:156-246 | How the printed text of any selector of tokens reads: blind labels and NotIn terms pass, blind In terms do not, all others mean what they should |
| Selectors.MeaningPreserved | internal/kube/metrics.go:156-246 | For every selector of tokens and every label map, evaluating the printed selector is the Kubernetes meaning of the structured one if and only if, when all terms outside the blind spots hold, a loose blind spot and a tight one come together or not at all |
| Selectors.BlindSpotsReached | internal/kube/metrics.go:164-203 | A selector in each kind of blind spot: one passes and should not, the other does not pass and should |
| Selectors.MeaningPreservedForNonEmptyValues | internal/kube/types.go:426-451 | With non-empty values that holds on every label map |
| Selectors.SpecificityCountsTerms | internal/kube/metrics.go:154 | The specificity of a printed selector is the number of its labels and known match expressions |
| Selectors.WrittenOperators | internal/kube/metrics.go:185-203 | In texts written by hand, `k!=v` holds unless the label is there with that value, and `k==v` is `k=v` |
| Selectors.PaddingIgnored | internal/kube/metrics.go:157-161 | White space around a term says nothing, and a blank term asks for nothing |
| Attribution.MetricWorkloadForPod | internal/kube/metrics.go:133-152 | The chosen workload is the first Pod entry of that name, or else the earliest selecting candidate of maximal specificity; there is one if and only if some candidate names or selects the pod |
| Attribution.ChosenByMeaning | internal/kube/metrics.go:133-154 | For workloads whose selectors were printed, and whose blind spots at the pod's labels are absent or cancel out: the chosen workload is the first Pod entry of that name, or else the earliest with the most conditions among those whose structured selector applies |
| Attribution.AttributedExact | internal/kube/metrics.go:30-48 | For every sample: it is attributed if and only if its pod, the last listed one of its namespace and name, is named or selected by some workload of that namespace, and then to the first Pod entry of its name or else the earliest selecting one of maximal specificity among all of them |
| Attribution.PodContainerMemoryLimits | internal/kube/metrics.go:117-131 | Each container name has its last parsed limit over all three container lists |
| Attribution.LimitExact | internal/kube/metrics.go:117-131 | The limit of a name is the last one of an ephemeral container, or else of an ordinary one, or else of an init container, or zero |
| Attribution.Target.MergePodMetric | internal/kube/metrics.go:98-115 | The target in place becomes the specified merge of its old value and the item |
| Attribution.FillAggregates | internal/kube/metrics.go:29-58 | The targets are those of the specified fold over all metric items, each target an object of its own |
| Attribution.AggregateAllMetrics | internal/kube/metrics.go:29-71 | The output lists every aggregate once, ordered by namespace and name, and its CPU, memory, limits and samples total those of the attributed items |
| Attribution.ArrangedIs | internal/kube/metrics.go:63-70 | The output is in dictionary order of namespaces, and within each of names without regard to case |
| Attribution.AttributionConserves | internal/kube/metrics.go:40-58 | Over the aggregate map, CPU, memory, limits and samples total those of the items whose pod is indexed and owned, each counted once |
| Attribution.OutputConserves | internal/kube/metrics.go:59-71 | So do they over any list of all entries of the map |
| Attribution.EntryHoldsItsSamples | internal/kube/metrics.go:98-115 | Each output entry holds exactly the samples attributed to its workload, and its totals are the sums over its own container list |
| Attribution.UsageIsShown | internal/kube/metrics.go:40-71 | Whenever a sample is attributed, the output has an entry about that very workload, with each of its containers, their usage and their limits |
| Attribution.OneEntryPerWorkload | internal/kube/metrics.go:49-58 | No two output entries are about one workload |
| Attribution.EntryIsLatest | internal/kube/metrics.go:98-101 | Each output entry carries the time of its latest attributed sample |
| Fingerprint.PodRuntimeFingerprint | internal/kube/types.go:194-202 | The loop and sort compute the specified text |
| Fingerprint.FingerprintCanonical | internal/kube/types.go:186-202 | For names without `=` and bars and IDs without bars, two pods share a fingerprint if and only if their multisets of name, container ID and restart count are equal |
| Fingerprint.FingerprintExact | internal/kube/types.go:186-202 | For all pods: they share one if and only if their sorted parts, cut at every bar, are the same texts |
| Fingerprint.BarsCollide | internal/kube/types.go:194-202 | The boundary of that condition: with a bar in a container ID, two different pods share a fingerprint |
| Sorting.SortStrings | internal/sshx/ssh.go:287-293 | The in-place insertion sort leaves the sorted arrangement of the old contents |
| Sorting.SortedUnique | internal/sshx/ssh.go:287-293 | A sorted arrangement is determined by the values, so any correct sort gives it |
| Sorting.LessExact | internal/sshx/ssh.go:287-293 | The order is that of a dictionary: a proper prefix comes first, and otherwise the first characters that differ decide |
| ShellWords.SplitCommandWords | internal/server/cloud_kubeconfig.go:295-336 | The Go loop computes the specified lexer after joining continued lines and trimming |
| ShellWords.ShellWords | webembed/src/app/51-connection-imports.js:380-408 | The JavaScript loop computes the specified lexer after joining continued lines |
| ShellWords.JoinLinesSame | internal/server/cloud_kubeconfig.go:296 | Two replacements in sequence and one regular expression join continued lines alike |
| ShellWords.JsLexesParts | webembed/src/app/51-connection-imports.js:380-408 | Any command of bare and quoted parts lexes to what the parts mean |
| ShellWords.GoLexesParts | internal/server/cloud_kubeconfig.go:295-336 | The same for the Go lexer, which refuses the empty command |
| ShellWords.QuoteLexInverse | webembed/src/app/51-connection-imports.js:380-414 | Both lexers undo the quoter if and only if no word is empty or holds a backslash before a line break; for all other lists, what comes back |
| ShellWords.QuotesOnlyIfNeeded | webembed/src/app/51-connection-imports.js:410-414 | The browser's quoter leaves a word as it is if and only if it is made of letters, digits and characters no shell minds |
| ShellWords.RemoteCommand | internal/sshx/ssh.go:250-271 | The text is `env`, the quoted bindings in key order and the quoted arguments |
| ShellWords.RemoteCommandLexes | internal/sshx/ssh.go:250-271 | Lexing a remote command gives `env`, the sorted bindings and the arguments back |
| ShellWords.EscapesMean | internal/server/cloud_kubeconfig.go:300-330 | For both lexers every escaped character outside single quotes is that character |
| ShellWords.DoubleQuotesMean | internal/server/cloud_kubeconfig.go:300-330 | For both lexers double-quoted text, with its double quotes and backslashes escaped, is that text |
| LexerAgreement.LexersAgree | internal/server/cloud_kubeconfig.go:295-336 | For every command the two lexers give the same words or the same refusal if and only if it is not blank and either dangles for both or is finished with no character that is white space for one of them only |
| LexerAgreement.RunWeight | webembed/src/app/51-connection-imports.js:380-408 | The two lexers quote and escape alike, and JavaScript's words lack exactly the characters at which it alone splits |
| LexerAgreement.NoBreakSpaceDivides | webembed/src/app/51-connection-imports.js:396 | A no-break space is part of a word for Go and splits for JavaScript |
| LexerAgreement.TrimmingDivides | internal/server/cloud_kubeconfig.go:296-299 | An escaped blank at the end is a word for JavaScript and unfinished for Go; a blank command is refused by Go and no words for JavaScript |
| CloudCommands.ParseCommandOptions | internal/server/cloud_kubeconfig.go:248-293 | The index loop computes the specified parse, errors included |
| CloudCommands.CommandRemainder | internal/server/cloud_kubeconfig.go:231-246 | The words after the executable and its subcommands, if they are there |
| CloudCommands.BuildEksCommand | internal/server/cloud_kubeconfig.go:128-160 | The plan that EksFormToPlan is about, or the error: not an EKS command, a word that is not accepted, or no name |
| CloudCommands.BuildGkeCommand | internal/server/cloud_kubeconfig.go:162-193 | The plan that GkeFormToPlan and GkePlanFixpoint are about, or the error: not a GKE command, a word that is not accepted, or not one cluster name |
| CloudCommands.EksCommandFromFields | webembed/src/app/51-connection-imports.js:68-94 | The command text is the quoted words of the form |
| CloudCommands.GkeCommandFromFields | webembed/src/app/51-connection-imports.js:68-94 | The command text is the quoted words of the form |
| CloudCommands.ParseClean | internal/server/cloud_kubeconfig.go:248-293 | Everything the parser accepts is non-empty and literal, and no positional word starts with a dash |
| CloudCommands.NoVariables | internal/server/cloud_kubeconfig.go:268-284 | What the parser accepts holds no dollar sign and no backtick |
| CloudCommands.RemainderExact | internal/server/cloud_kubeconfig.go:231-246 | The remainder is found if and only if the words are an executable of that name, the subcommands and it |
| CloudCommands.PlansAreNamed | internal/server/cloud_kubeconfig.go:138-178 | Every plan names its cluster and passes the name on; a command without a name is refused |
| CloudCommands.InlineValuesAlike | internal/server/cloud_kubeconfig.go:252-271 | Values after an equals sign mean what they would as words of their own, in every parse and with the same errors |
| CloudCommands.FlagSaysTrue | internal/server/cloud_kubeconfig.go:272-278 | A flag may carry "true" or nothing after its equals sign, and all else is refused |
| CloudCommands.ExecutableFound | internal/server/cloud_kubeconfig.go:243-246 | An executable is known by the last name of its path, in any case of letters and with or without ".exe" |
| CloudCommands.EksFormToPlan | internal/server/cloud_kubeconfig.go:128-160 | Form, quote, lex and parse give a plan with exactly the field values if every field is literal, and an error otherwise |
| CloudCommands.GkeFormToPlan | internal/server/cloud_kubeconfig.go:162-193 | The same for GKE, if and only if the cluster name can be a name and the fields are literal |
| CloudCommands.GkePlanFixpoint | internal/server/cloud_kubeconfig.go:162-193 | For every accepted command, the plan's own words give the same plan again |
| DockerLogs.LineAssembler.WriteFrame | internal/dockerapi/client.go:1115-1140 | The assembler's new state and result for any handler: the lines taken, and the new tail, or the old buffer after a refusal or a line that is too long |
| DockerLogs.LineAssembler.Flush | internal/dockerapi/client.go:1156-1168 | What is left on each stream is handed over, in stream order, up to a refusal |
| DockerLogs.DecodeRawStream | internal/dockerapi/client.go:1043-1069 | The loop is the specified read for any reader, handler and context: header, size limit, payload, handler error, then cancellation |
| DockerLogs.CalmReadFeeds | internal/dockerapi/client.go:1043-1069 | When the handler takes every line and the context stays, a read feeds exactly the decoded frames and ends as decoding does, or at the first line that is too long |
| DockerLogs.StoppedReadIsPrefix | internal/dockerapi/client.go:1043-1069 | However a read is stopped, the lines handed over are the first of those its frames yield |
| DockerLogs.RefusalsAreKept | internal/dockerapi/client.go:988-1000 | No line is handed over that the handler refuses, and a stream that ends with the handler's error was refused one |
| DockerLogs.FinishedMeansAll | internal/dockerapi/client.go:1043-1069 | A stream that ends without an error has read every frame and handed over every line |
| DockerLogs.ContextStopsRead | internal/dockerapi/client.go:1063-1068 | A context that is done after n frames, and not before, stops the read there |
| DockerLogs.DecodeEncode | internal/dockerapi/client.go:1043-1069 | Decoding undoes encoding for every list of frames and whatever follows |
| DockerLogs.LinesConcat | internal/dockerapi/client.go:1127-1139 | Lines and tail of a concatenation are those of feeding the parts one after the other |
| DockerLogs.LinesExact | internal/dockerapi/client.go:1127-1139 | Every text is made of lines, each ended by a line feed or a carriage return and a line feed, and an unfinished rest, in exactly one way; those are its lines and its tail |
| DockerLogs.FlushEndsLine | internal/dockerapi/client.go:1156-1168 | A flush gives an unfinished line as a line feed would |
| DockerLogs.FeedSpells | internal/dockerapi/client.go:1115-1140 | After any frames the lines of a stream are those of its own text, and its buffer is the tail without a line feed |
| DockerLogs.FeedFits | internal/dockerapi/client.go:1115-1140 | A read goes through if and only if no pending line with its next payload exceeds the limit |
| DockerLogs.StreamLogs | internal/dockerapi/client.go:982-1000 | The read and then the flush, whatever the read gave; the flush's error counts only if the read had none |
| DockerLogs.StreamSpells | internal/dockerapi/client.go:982-1000 | For every list of frames that fit, read without disturbance: from the bytes to the lines handed over after the flush, each stream gives the lines that its own text is made of |
| DockerLogs.ReadSpells | internal/dockerapi/client.go:1043-1069 | From bytes to lines, what is read is what the payloads spell |
| DockerLogs.ChunkingInvariant | internal/dockerapi/client.go:1115-1140 | Without stamps a stream's lines are those that its payloads, put end to end, are made of, whatever the frames and the interleaving |
| DockerLogs.NoByteLost | internal/dockerapi/client.go:1115-1168 | Without stamps and carriage returns, the lines of a stream, each ended again, are its payloads end to end, up to a last line feed |
| DockerLogs.TimestampedRoundTrip | internal/dockerapi/client.go:1142-1154 | Lines cut into stamped pieces in any way come back whole with their first stamp only, less at most one carriage return at their end |
| LogView.ExpandLogContext | webembed/src/app/43-log-rendering.js:174-182 | The indexes are, in order, those within the context of some match |
| LogView.PositionsAreRecordsIff | webembed/src/app/43-log-rendering.js:174-182 | For all sizes, with fractions or without: every position in the set is a record's index if and only if the size before is whole or reaches past the first record from every match, and then the set is the context of the whole parts |
| LogView.HalfPosition | webembed/src/app/43-log-rendering.js:119 | With one and a half records before, a position lies between two records |
| LogView.ContextKept | webembed/src/app/43-log-rendering.js:174-182 | Later matches never reveal a hidden index at or below the last visible one |
| LogView.VisibleGrows | webembed/src/app/43-log-rendering.js:53-69 | The visible indexes after appending are those shown before and those beyond them |
| LogBuffer.ArriveKeepsLedger | webembed/src/app/42-activity-streams.js:81-119 | The handler keeps `seen` the disjoint union of the buffered keys if and only if its gap notice, if any, has a fresh key or both records with that key are trimmed at once |
| LogBuffer.NeverBothTrimmed | webembed/src/app/42-activity-streams.js:157-172 | With one target a trim never reaches the notice |
| LogBuffer.LedgerKept | webembed/src/app/42-activity-streams.js:81-172 | Over every run of arrivals, clears and reconnects that holds after each event if and only if every gap notice is harmless in this sense |
| LogBuffer.LedgerKeptByFreshNotices | webembed/src/app/42-activity-streams.js:81-172 | With one target, if and only if every gap notice has a fresh key |
| LogBuffer.LinesConserved | webembed/src/app/43-log-rendering.js:239-250 | Over every run line counts stay those of the messages, and buffered plus removed lines are the accepted lines |
| LogBuffer.ArrivalTurnsAway | webembed/src/app/43-log-rendering.js:217-225 | Until a trim, an arrival turns away exactly the later records that agree with it in all nine fields, or without any of them in the sequence, besides those turned away before it |
| LogBuffer.TurnedAwayIff | webembed/src/app/42-activity-streams.js:81-119 | While the ledger holds, a record is turned away if and only if a buffered record has a line of the same fields |
| LogBuffer.JoinsIff | webembed/src/app/43-log-rendering.js:239-252 | With one target an arrival joins the last record if and only if both are log lines of one container at one time, it is unstructured and there is room; then the text goes on with it, and otherwise it is a record of its own |
| LogBuffer.SeveralTargetsJoinNothing | webembed/src/app/42-activity-streams.js:81-119 | With several targets an arrival becomes a record of its own among those before it |
| LogBuffer.BufferStaysRight | webembed/src/app/42-activity-streams.js:81-119 | In every run no record mixes lines of different containers or times, and the buffer holds at most 3000 records and the gap notices of duplicates |
| LogBuffer.MergeKeepsKeys | webembed/src/app/42-activity-streams.js:152-155 | Merging by time keeps every key |
| LogBuffer.GapNoticeCanRepeat | webembed/src/app/42-activity-streams.js:92-101 | Reconnecting and receiving the same two records again buffers one notice key twice |
| LogText.TextConserved | webembed/src/app/42-activity-streams.js:81-172 | Over every run the removed and the buffered lines are the accepted ones; with one target they are so in order |
| LogText.LinesAreMessage | webembed/src/app/43-log-rendering.js:248 | The lines of a message, with line breaks between them, are the message |
| LogText.StoredInOrder | webembed/src/app/42-activity-streams.js:113 | With several targets every stored record leaves the buffer in time order |
| LogText.GapsAccounted | webembed/src/app/42-activity-streams.js:90-104 | A source's last number is its first, plus one for each advance, plus the numbers its gap notices report missing |
| LogText.NoticeSaysMissing | webembed/src/app/42-activity-streams.js:81-119 | A gap notice begins with the number of missing records and ends with the two numbers around them |
| LogStream.MatchesGrow | webembed/src/app/43-log-rendering.js:30-34 | Matches of a longer buffer are the old ones and those among the new records |
| LogStream.RowsGrow | webembed/src/app/43-log-rendering.js:53-69 | For every context size, appending the rows beyond the last visible one gives the rows of a rebuild |
| LogStream.ActivityStream.constructor | webembed/src/app/42-activity-streams.js:1-47 | The stream starts with the newest retained records, their keys, and a full render to come |
| LogStream.ActivityStream.ScheduleRender | webembed/src/app/43-log-rendering.js:1-11 | A pending frame without a full render has something new to show |
| LogStream.ActivityStream.Coalesce | webembed/src/app/43-log-rendering.js:239-250 | The last record takes the new one in, exactly when they may be joined |
| LogStream.ActivityStream.Trim | webembed/src/app/42-activity-streams.js:157-172 | The oldest records and their keys go, and everything is rendered again |
| LogStream.ActivityStream.OnActivity | webembed/src/app/42-activity-streams.js:81-119 | The buffer becomes that of the specification, a stored record schedules a frame, and the page stays consistent with the rendered prefix |
| LogStream.ActivityStream.Clear | webembed/src/app/76-activity-actions.js:59-72 | The buffer is empty and a full render is pending |
| LogStream.ActivityStream.Extend | webembed/src/app/43-log-rendering.js:53-69 | The fast path, with and without an active filter, leaves the rows of a render from scratch |
| LogStream.ActivityStream.Render | webembed/src/app/43-log-rendering.js:13-82 | Every path leaves a right page and the rows, matches and visible indexes of a render from scratch; a placeholder's words are right if and only if the view was rebuilt or they were right before; the branch that shows "No records match this filter." is dead |
| LogStream.AllRowsRight | webembed/src/app/43-log-rendering.js:37-52 | A page is right: rows in the order of the records; without a filter every record has one; under one, exactly the records within the context of a match, and those that match are highlighted |
| LogStream.ActivityStream.Frame | webembed/src/app/43-log-rendering.js:6-10 | So does every scheduled frame, in every run of the handlers |
| LogStream.WaitingGoesStale | webembed/src/app/43-log-rendering.js:42-72 | A cleared view, rendered and then sent one record that does not match, still says that it waits |
| Fanout.Subscriber.constructor | internal/activity/manager.go:74-86 | The replay is queued without blocking |
| Fanout.Subscriber.Deliver | internal/activity/manager.go:169-190 | One broadcast to one viewer: a drop notice if there is room, then the record or one more drop |
| Fanout.NoticeExact | internal/activity/manager.go:169-184 | A drop notice keeps the encoding of the history exact |
| Fanout.RecordExact | internal/activity/manager.go:186-190 | A record keeps it exact if and only if it is refused or no drop is outstanding |
| Fanout.DropsAreExact | internal/activity/manager.go:76-190 | Over every run of broadcasts with receives between them, replacing each notice by that many next records rebuilds the replay and all broadcasts in order, outstanding drops last |
| Fanout.DropsAreCounted | internal/activity/manager.go:159-192 | With receives anywhere, delivered records, reported drops and outstanding drops add up to the broadcasts since joining |
| Fanout.FloodDropsExcess | internal/activity/manager.go:186-190 | A viewer that never receives keeps the first records and counts the rest |
| Fanout.RoomReportsDrops | internal/activity/manager.go:169-190 | In every run, after a broadcast that found room for two items all drops are reported and what was sent reads as the whole history |
| Fanout.ExactIffOrderKept | internal/activity/manager.go:169-190 | However sends and receives interleave, what was sent is exact after every step if and only if each new record, as it is tried, finds the channel full or no drop outstanding |
| Fanout.OrderCanBeLost | internal/activity/manager.go:169-190 | From joining on: more records than the channel holds, and then a receive between the two sends of a broadcast, make it inexact |
| StreamLifecycle.Manager.Subscribe | internal/activity/manager.go:50-84 | One lock region: the mapped open stream, its linger timer stopped, or a new one gets a subscriber with a number of its own and a channel that holds the ring; safety is kept and the replay never blocks |
| StreamLifecycle.Manager.Unsubscribe | internal/activity/manager.go:88-103 | Once, the subscriber that the closure's key and number name at that time is forgotten and its channel closed, and a stream left without subscribers gets its linger timer; safety is kept |
| StreamLifecycle.Manager.Broadcast | internal/activity/manager.go:159-192 | The ring, and every subscriber of the stream in any order; every channel sent to is open |
| StreamLifecycle.Manager.End | internal/activity/manager.go:139-146 | The stream is closed and unmapped, and each of its channels is closed for the first time |
| StreamLifecycle.Manager.StopIfUnused | internal/activity/manager.go:194-202 | Only a mapped open stream without subscribers is cancelled, and the timer is spent |
| StreamLifecycle.AlwaysSafe | internal/activity/manager.go:50-202 | Every reachable state is safe: streams, subscriptions, channels, rings and viewers agree |
| StreamLifecycle.OneOpenStreamPerKey | internal/activity/manager.go:55-69 | A key has at most one stream that is not closed, and a new subscriber gets it |
| StreamLifecycle.NoClosedChannelUsed | internal/activity/manager.go:139-146 | No run closes a channel twice or sends on a closed one |
| StreamLifecycle.ViewersRebuildHistory | internal/activity/manager.go:76-84 | Every attached viewer can rebuild its stream's history from where its replay began |
| StreamLifecycle.HistoryIsPublished | internal/activity/manager.go:159-168 | In every run a stream's history is what was published to it before its end, in order |
| StreamLifecycle.RingIsNewest | internal/activity/manager.go:165-168 | In every run a ring holds the newest 500 records of its stream's history |
| StreamLifecycle.JoinReplays | internal/activity/manager.go:76-84 | In every run a viewer that joins finds in its channel the newest records published to its stream, up to 500, in order |
| StreamLifecycle.LeaveClosesOwn | internal/activity/manager.go:88-103 | While its own stream is mapped, an unsubscribe leaves its own channel closed and every other as it was |
| StreamLifecycle.LeaveActsOnce | internal/activity/manager.go:86-90 | In every run an unsubscribe closure that is called again, at any later time, changes nothing |
| StreamLifecycle.LeaveClosesAnother | internal/activity/manager.go:88-103 | An unsubscribe closes another viewer's channel if and only if a newer stream under its key has a subscriber of its number |
| StreamLifecycle.LeaveAfterRestartClosesAnother | internal/activity/manager.go:74-75 | A run in which that happens |
| StreamLifecycle.CancelledIff | internal/activity/manager.go:194-202 | In every run a stream is cancelled if and only if at some step a timer found it mapped, open and without subscribers |
| StreamLifecycle.UnusedIff | internal/activity/manager.go:194-202 | In every run a timer finds a stream unused if and only if its run has not finished and no open channel is on it |
| StreamLifecycle.JoinFindsCancelledIff | internal/activity/manager.go:55-73 | In every run a join attaches to a cancelled stream if and only if its key is mapped and a timer once found that stream unused |
| StreamLifecycle.JoinCanFindCancelled | internal/activity/manager.go:55-73 | A run in which that happens |
| StreamLifecycle.NoStreamAbandoned | internal/activity/manager.go:97-99 | In every reachable state an open stream without viewers is cancelled or has a linger timer running |
| StreamLifecycle.TimerCancels | internal/activity/manager.go:194-202 | That timer cancels it if no viewer comes first |
| Reconciler.Filtered | internal/kube/types.go:168-180 | Without a name all pods, with a name the first pod of that name if there is one |
| Reconciler.PodStreams.VisitListed | internal/kube/kubectl.go:643-666 | The first loop: pods added, restarted or refreshed as specified |
| Reconciler.PodStreams.DropUnseen | internal/kube/kubectl.go:667-677 | The second loop: unseen pods cancelled and removed, in any map order |
| Reconciler.PodStreams.Reconcile | internal/kube/kubectl.go:625-688 | One pass does what the specification says; only a first pass reports a failed read |
| Reconciler.PodStreams.Stream | internal/kube/kubectl.go:690-711 | A whole run ends with every started stream cancelled, its records and state those of the specified passes |
| Reconciler.AlwaysRight | internal/kube/incluster.go:343-444 | Over every run each started stream is active or cancelled, never both, each entry carries its pod's fingerprint, and the records tell exactly which pods are active, each state change being compared with the pod as last reported |
| Reconciler.ActiveIsListing | internal/kube/incluster.go:376-410 | After a successful pass the active keys are the identities of the listed pods, each with the pod as last listed and its fingerprint |
| Reconciler.OneEntryPerPod | internal/kube/types.go:161-166 | In every run, after a successful pass each listed pod, told apart by UID or else by namespace and name, has one entry, each entry one running stream, and no other stream runs |
| Reconciler.DifferentPodsCounted | internal/kube/kubectl.go:643-666 | Pods that all differ get as many entries and running streams as there are pods |
| Reconciler.FirstListing | internal/kube/kubectl.go:643-666 | A first listing of pods that all differ adds and starts each of them in order, with recent events, and does nothing else |
| Reconciler.StreamKeptIff | internal/kube/kubectl.go:643-677 | In every run a pass leaves an active pod's stream running if and only if its read failed, or the pod is listed and every listed occurrence carries the fingerprint the stream was started for; otherwise it cancels the stream |
| Reconciler.FollowAlternates | internal/kube/kubectl.go:648-677 | Records that never contradict themselves alternate, and end with "added" exactly for a pod that is present |
| Reconciler.AddedAndRemovedAlternate | internal/kube/kubectl.go:648-677 | For each pod "added" and "removed" strictly alternate, starting with "added", over every run |
| Reconciler.EventsOncePerAddition | internal/kube/kubectl.go:653-664 | Recent events are asked for once for each time a pod is added, and not on a restart |
| Reconciler.NoticesCounted | internal/kube/kubectl.go:627-687 | After every pass the waiting notices are the maximal runs of empty listings, and the error notices with the silent runs are the runs of identical errors |
| Reconciler.AllRunsNoticedIff | internal/kube/kubectl.go:627-640 | All runs of identical errors are noticed if and only if none begins with an empty text after no failure |
| Reconciler.ErrorNoticesAreRuns | internal/kube/kubectl.go:627-640 | As failed reads have a text, the error notices of every run are its runs of identical errors |
| Reconciler.EmptyErrorIsSilent | internal/kube/kubectl.go:631-632 | The boundary of that condition: an empty error text, which no read gives, would be one run and no notice |
| SnapshotCache.Manager.Look | internal/metrics/manager.go:61-84 | One lock region: a hit on young finished data, a wait for the load in flight, or a load on the named or a new entry |
| SnapshotCache.Manager.Store | internal/metrics/manager.go:97-103 | A finished load is written to its own entry, orphaned or not |
| SnapshotCache.Manager.InvalidateSnapshot | internal/metrics/manager.go:108-112 | The name is forgotten and the entries stay |
| SnapshotCache.AlwaysRight | internal/metrics/manager.go:56-112 | In every interleaving named entries are younger than the last invalidation, and loads belong to their entries |
| SnapshotCache.OneLoadPerEntry | internal/metrics/manager.go:66-83 | Each entry has at most one load in flight |
| SnapshotCache.OneLoadPerConnection | internal/metrics/manager.go:66-83 | In every run at most one load of a connection is in flight since its last invalidation |
| SnapshotCache.LookDecides | internal/metrics/manager.go:56-84 | In every run a look waits if and only if such a load is in flight, returns if and only if none is, the data is young enough and one has returned, and loads otherwise |
| SnapshotCache.NoStaleSnapshot | internal/metrics/manager.go:56-112 | A call that starts after an invalidation returns what a load of its connection gave that began after it |
| SnapshotCache.NobodyStuck | internal/metrics/manager.go:66-75 | Every call can move or waits for a load that can finish |
| SnapshotCache.HitsAreNamed | internal/metrics/manager.go:60-65 | In every run a hit is the data of the entry named at that moment, from a load that began after the last invalidation, whenever the call itself began |
| AgentQueues.StreamSink.SendTerminal | internal/agent/hub.go:347-361 | The two sends and the eviction leave the result queued |
| AgentQueues.StreamSink.HandleRecord | internal/agent/hub.go:128-136 | A record is queued, or the slow reader's stream is ended |
| AgentQueues.SendTerminalQueues | internal/agent/hub.go:347-361 | Whatever is received in between, the step that returns has queued the result |
| AgentQueues.TerminalNeverLost | internal/agent/hub.go:343-361 | Once a terminal was sent, one is queued or received, except inside a later eviction that is about to queue another |
| AgentQueues.ReaderEnds | internal/agent/hub.go:273-292 | Once a terminal was sent, the reader ends by its (capacity + n)-th receive, where n records are still offered, and is never blocked outside a later eviction |
| AgentQueues.QuietStreamEnds | internal/agent/hub.go:273-292 | In every run, by its capacity-th receive when nothing more is offered |
| AgentQueues.ReaderCanStarve | internal/agent/hub.go:128-136 | While records are offered there is no bound of its own: for every n a run with n receives after a terminal was sent, and none of them terminal |
| AgentQueues.SendingDelivers | internal/agent/hub.go:347-361 | A whole sendTerminal leaves its result queued or received, however its reader receives between its steps |
| AgentQueues.OrderIsKept | internal/agent/hub.go:128-136 | In every run what is received, queued or on its way is what the producer set out to send, in that order, less what was evicted; without an eviction it is all of it |
| AgentSessions.Session.AttachCommands | internal/agent/hub.go:70-84 | A new generation is attached with a fresh command queue |
| AgentSessions.Session.DetachCommands | internal/agent/hub.go:87-101 | The closure's effect, for its own generation only: both sink maps emptied and every queue in them sent a terminal result |
| AgentSessions.Session.OpenStreamSink | internal/agent/hub.go:247-257 | A stream opens if and only if the agent is attached and was seen lately |
| AgentSessions.OpenIff | internal/agent/hub.go:247-257 | In every run an id names a queue if and only if a step opened it with that queue, on an attached agent seen lately, and no later step removed or reopened it or detached |
| AgentSessions.OpenedQueueIsNew | internal/agent/hub.go:248-256 | The queue is new and empty, with room for 512 results, or 128 for metrics |
| AgentSessions.Session.TakeCommandQueue | internal/agent/hub.go:230-238 | Under the lock: if the agent is attached and seen lately, the queue of the newest attachment is taken |
| AgentSessions.Session.SendCommand | internal/agent/hub.go:239-245 | Without the lock: the command goes to the queue that was taken, if it has room, and to no other |
| AgentSessions.AttachedIff | internal/agent/hub.go:70-101 | In every run the agent is attached if and only if the newest attachment has not detached |
| AgentSessions.StaleDetachIgnored | internal/agent/hub.go:87-101 | At any time after a reconnect an older closure changes nothing |
| AgentSessions.OldCommandsOnlyShrink | internal/agent/hub.go:75-78 | In every later run an older queue shrinks at each step if and only if the step is no send by a sender that took that queue; only senders from before, still waiting, can be such, and without one the queue only shrinks |
| AgentSessions.OldQueueFillsIff | internal/agent/hub.go:237-245 | Some later run puts a command into an older queue if and only if a sender that took it still waits |
| AgentSessions.QueueTakenIsNewest | internal/agent/hub.go:237 | A queue taken after an attach is never an older one |
| AgentSessions.LateSendFillsOldQueue | internal/agent/hub.go:237-240 | A run in which a command enters the older queue after a reconnect |
| AgentSessions.FilledWhileNewest | internal/agent/hub.go:75-78 | In every run an old session gets no command meant for a newer one: whatever enters its queue was taken up by a sendCommand while it was the newest and attached |
| AgentSessions.CommandsConserved | internal/agent/hub.go:230-245 | In every run the commands sent to a session are, in order, those it fetched and those still queued |
| AgentSessions.SendsOnce | internal/agent/hub.go:239-245 | In every run a sendCommand sends its command at most once, and never after it gave up |
| AgentSessions.AlwaysApart | internal/agent/hub.go:247-257 | In every run no two open streams, metric streams included, share a queue |
| AgentSessions.DetachEndsStreams | internal/agent/hub.go:90-98 | A current detach leaves a terminal result queued or received for every open stream, whatever is received meanwhile, and touches no other queue |
| AgentSessions.DetachedReadersEnd | internal/agent/hub.go:90-98 | In every run the reader of each stream open at a detach ends, by its (capacity + n)-th receive where n records are still offered |

## Left out

- HTTP, SSE, Docker, kubectl and ssh processes, TLS, files, encryption and the store: input and output.
- HTML, focus, scrolling, the match cursor, expanded rows and the log inspector: only the rows the renderer shows are kept.
- JSON and YAML decoding, regular expressions, `time.Parse` and quantity parsing: parameters or parsed inputs; CPU is a real and memory an unbounded integer, so saturation is not modelled.
- `aggregateSelectedMetrics`, redaction, settings, enrichment and overview grouping: they would add only easy members.
- AKS forms and plans: built like the EKS ones.
- CloudCommands.GkePlanFixpoint: has no EKS counterpart, because an EKS plan puts its options before the subcommand and adds `--dry-run`, which the parser refuses.
- CloudCommands.EksFormToPlan: fields are single lines, as text inputs give them.
- CloudCommands.GkeFormToPlan: fields are single lines, as text inputs give them.
- Text.ToLower: changes ASCII letters only, where Go folds all of Unicode.
- DockerLogs.LineAssembler.WriteFrame: works on values and leaves out the reuse of the buffer's storage.
- LogBuffer.LinesConserved: supposes that target names hold no line break; message lengths are in characters, where JavaScript counts UTF-16 units.
- LogText.GapsAccounted: accounts for numbers, not records; the manager also spends numbers on other streams and on other viewers' drop notices, so a gap need not be a lost record.
- LogText.StoredInOrder: supposes timestamps that parse; for others the comparison of the source is no order.
- LogBuffer.LedgerKept: the missing and the null fields of a record are empty strings, and timestamps that do not parse are not modelled.
- LogStream.ActivityStream.Render: the filter signature stands for the whole filter; formatter overrides of single rows, which ask for a full render, are left out.
- Fanout.Subscriber.Deliver: the sequence numbers and times of drop notices are left out.
- StreamLifecycle.ViewersRebuildHistory: receives happen between broadcasts; inside one only the count survives, which Fanout.DropsAreCounted shows.
- StreamLifecycle.Manager.Broadcast: viewers are values here, and updated in place in Fanout.Subscriber; record filtering and enrichment before a broadcast are left out.
- StreamLifecycle.Manager.StopIfUnused: one flag stands for a stream's timers and a timer may run at any moment, even one that was stopped too late; linger times are left out.
- The metrics manager's live streams: the activity manager's without drop notices.
- Reconciler.PodStreams.Stream: the records of the pods' own streams and a context that ends in the middle of a pass are left out; the records of `podStateRecords` are one abstract record.
- SnapshotCache.Manager.Look: the age limit is a free choice at each look, and copies of items are values, so aliasing is left out.
- AgentQueues.TerminalNeverLost: supposes one producer at a time; two producers on one queue could lose a result. AgentSessions states the same assumption for a detach.
- AgentSessions.Session.SendCommand: the three seconds of waiting are a free choice of when to send or give up; agent metadata is left out.
- LogView.ExpandLogContext: takes whole sizes; what fractions do is stated by LogView.PositionsAreRecordsIff, and the rows of the renderer suppose whole sizes.
