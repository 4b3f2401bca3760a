# spn: a Dafny model of the Wayback Machine bulk submitter

`spn` reads a list of URLs from a file or from standard input. It posts
each URL to the Save Page Now endpoint `https://web.archive.org/save`,
signing every request with an access key and a secret key. Each reply
status is logged as `{index}/{count}: {status} -> {url}`.

- A `200` reply, or any other status except `429`, is the URL's final outcome, and the 1-based index advances.
- A `429 Too Many Requests` reply makes the client sleep for 60 seconds and push the URL to the back of the queue, to be tried again.
- A transport or decoding error ends the whole run.

The model covers:

- the submission queue of `submit`;
- the request `send` builds (the `LOW access:secret` token and the two-field form);
- how `read` turns a buffer into the URL list;
- the checks `main` makes before submitting (an empty list, missing keys) and how each key is taken from the command line or else the environment;
- the verbosity-to-log-filter mapping.

Modules, one per source file plus two helpers:

- `Wrappers`: `Option` and `Result`, with `Option::or` and map lookup.
- `Text`: the parts of Rust's `str` API the reader relies on, namely `split` with a one-character separator and `trim`.
- `Arguments` (`src/arguments.rs`): the parsed command line, and `Verbosity::to_filter`.
- `Network` (`src/network.rs`):
  - The reply of the HTTP exchange is an input. A run is given the sequence of replies the service would return, one consumed per request.
  - Log lines, echoed `message` fields, requests and cooldowns are appended to a trace.
  - `Run` is the specification of the queue loop. The method `Submit` is the loop itself, proved against `Run`.
  - The loop invariant `Inv` is proved separately: no URL is lost, the index is one past the number of final outcomes, there is one cooldown per 429 and every cooldown lasts 60 seconds, every request is classified once, and every log line is within `1..count`.
- `Program` (`src/main.rs`):
  - The filesystem (a map from path to text), standard input (a `Result`) and the environment (a map) are inputs.
  - The method `Execute` is `main` after argument parsing.

Two behaviours of the code worth knowing:

- **URL lines are kept untrimmed.** `read` tests `value.trim().is_empty()` but keeps `value.to_owned()` (`src/main.rs:38`, `:50`). So leading spaces and the `'\r'` of CRLF files stay part of the URL (`Program.CarriageReturnKept`).
- **A retried URL keeps its index.** For URLs a and b with replies 200, 429, 200, the lines are `1/2: 200 -> a`, `2/2: 429 -> b` and `2/2: 200 -> b`, with one 60-second sleep in between (`Network.RateLimitedOnceScenario`).

A run's length is bounded by the replies it is given. The source's loop
may run forever while a URL keeps getting 429. The model stops with
`Exhausted` when the given replies are used up and the queue is not yet
empty.

## Model

| member | source | states |
|---|---|---|
| Wrappers.Option.Or | src/main.rs:81-82 | `Option::or`: the receiver if it is `Some`, otherwise the argument |
| Wrappers.Get | src/main.rs:81-82 | a lookup is `Some` exactly when the key is present, and then holds that key's value (`env::var(..).ok()`) |
| Text.TrimStart | src/main.rs:38 | the result is a suffix of the input, what was removed is all whitespace, and the result does not start with whitespace |
| Text.TrimEnd | src/main.rs:38 | the result is a prefix of the input, what was removed is all whitespace, and the result does not end with whitespace |
| Text.Trim | src/main.rs:38 | `str::trim`: no longer than the input, and a non-empty result starts and ends with a non-whitespace character (`TrimStart`, `TrimEnd` and `TrimEmptyIffBlank` pin it) |
| Text.TrimEmptyIffBlank | src/main.rs:38 | `trim().is_empty()` holds exactly when every character is whitespace |
| Text.Split | src/main.rs:37 | `split('\n')` yields at least one piece and no piece contains the separator |
| Text.JoinSplit | src/main.rs:37 | splitting loses nothing: joining the pieces with the separator gives back the buffer |
| Text.SplitPlain | src/main.rs:37 | text without the separator splits into itself alone |
| Text.SplitAtSeparator | src/main.rs:37 | a separator-free prefix followed by the separator is split off as the first piece |
| Text.SplitJoin | src/main.rs:37 | pieces without the separator survive a join and a split unchanged (at least one piece) |
| Arguments.ToFilter | src/arguments.rs:43-50 | debug gives Trace, else verbose gives Debug, else quiet gives Warn, else Info, each as an if-and-only-if |
| Arguments.ToFilterIsPriorityLookup | src/arguments.rs:43-50 | `to_filter` equals the first-match reading of the priority table (debug, verbose, quiet), with Info as the default |
| Arguments.ToFilterRange | src/arguments.rs:43-50 | the filter is always Trace, Debug, Warn or Info, never Off or Error |
| Arguments.DistinctFlagsDistinctFilters | src/arguments.rs:20-31 | when at most one switch is set (the `multiple = false` group), different switch settings select different filters |
| Network.Token | src/network.rs:15 | the token is `LOW `, then the access key, a colon and the secret key, checked position by position |
| Network.IndexOf | src/network.rs:15 | finds the first occurrence of a character, or reports that there is none |
| Network.TokenRoundTrip | src/network.rs:15 | when the access key has no colon, parsing the token at its first colon gives back exactly the key pair |
| Network.Form | src/network.rs:16-19 | the form has exactly the keys `url` and `capture_all`, holding the URL and `on` |
| Network.BuildRequest | src/network.rs:21-24 | the request goes to the save endpoint, accepts JSON, carries a `LOW ` token as long as both keys plus five characters, and has exactly the form fields `url` (the URL) and `capture_all` (`on`); `RequestShape` ties the token to `Token` |
| Network.RequestShape | src/network.rs:14-26 | for any keys, the request goes to the save endpoint, accepts JSON, carries `Token` of the keys, and has a form naming the URL. When the access key has no colon, the token parses back to the keys |
| Network.Classify | src/network.rs:44-70 | Info exactly for 200, Warn exactly for 429, Error exactly for every other status |
| Network.Echo | src/network.rs:48-66 | at most one `message` line: present exactly when the body has a `message` field, logged at the status line's level with that field's text |
| Network.CollectAppend | src/network.rs:39-71 | projecting the trace (outcomes, requests, cooldowns) distributes over concatenation, so the trace is read in order |
| Network.Start | src/network.rs:35-37 | every URL queued in input order, index 1, nothing logged or sent; `StartInv` proves the loop invariant holds there |
| Network.Dispatch | src/network.rs:39-40 | `pop_front` plus the request: the queue loses one URL, the trace gains one event, the replies used rise by one, the index is unchanged; `Attempt` and `AttemptCounts` give the events |
| Network.Handle | src/network.rs:44-70 | the `match status` arms: no reply is consumed, the trace grows by the log line and at most a message and a sleep, 429 requeues the URL and keeps the index, other statuses advance it; `Attempt`, `AttemptCounts` and `Step` state the contents |
| Network.Run | src/network.rs:39-71 | the loop from a state: a completed run has an empty queue and an exhausted one a non-empty queue; `RunUsesReplies` states that replies are used in order up to the first transport error and all of them when exhausted, and `RunKeepsInv`, `RunUsesReplies`, `CompletedRun` and `InOrderWithoutRateLimits` state what it does |
| Network.StartInv | src/network.rs:35-37 | the state before the loop (all URLs queued in order, index 1, nothing sent) satisfies the loop invariant |
| Network.Step | src/network.rs:39-70 | one iteration with any status keeps the invariant: nothing lost, index one past the outcomes, one 60-second cooldown per 429, each request classified once, logs within range |
| Network.StepKeepsInv | src/network.rs:39-70 | the invariant after one iteration, stated over the parts of the new state (requeue on 429, advance otherwise) |
| Network.Classified | src/network.rs:44-70 | each answered request becomes exactly one outcome: final, or rate-limited |
| Network.Conserve | src/network.rs:39-61 | popping the front URL and either requeueing it or recording its outcome keeps the multiset of URLs |
| Network.StepCounts | src/network.rs:40-70 | one iteration adds one request, plus one rate-limited line and one 60-second cooldown on 429, or else one final outcome |
| Network.StepFits | src/network.rs:40-70 | every request of an iteration is built from an input URL with the run's keys, and its log line has `1 <= index <= count` |
| Network.TailProjections | src/network.rs:40-70 | the events of one iteration (request, log line, optional `message`, optional cooldown) project to one request and one outcome |
| Network.Attempt | src/network.rs:39-70 | an iteration sends the popped URL and logs it at the current index. On 429 the URL goes to the back, the index stays and the last event is the 60-second sleep. Otherwise the index advances by one |
| Network.AttemptCounts | src/network.rs:39-70 | what an iteration adds to the requests, the final outcomes, the rate-limited lines and the cooldowns |
| Network.AbortStep | src/network.rs:40 | on a transport error the popped URL was sent, nothing was logged for it, and it is in neither the queue nor the outcomes |
| Network.RunKeepsInv | src/network.rs:34-74 | every run keeps the invariant unless it aborts. A completed run has an empty queue, an exhausted one a non-empty queue, and an aborted one lost exactly its last URL |
| Network.RunUsesReplies | src/network.rs:39-40 | a run consumes replies in order, stops at the first transport error, and continues only on statuses |
| Network.CompletedRun | src/network.rs:34-74 | a completed run logs each input URL as a final outcome exactly as often as the input lists it, ends with index `count + 1`, and took one cooldown per 429 |
| Network.RunStatusStep | src/network.rs:39-70 | a status reply continues the run from the state after that iteration |
| Network.Advance | src/network.rs:44-69 | a non-429 status removes the front URL, records it as final and advances the index, with no cooldown |
| Network.InOrderWithoutRateLimits | src/network.rs:34-74 | without 429 replies the run completes with the queue's URLs as final outcomes in input order, the index rising by one per URL and no cooldown |
| Network.InOrderCombine | src/network.rs:39-71 | the in-order facts for the rest of the queue extend to the whole queue once the front URL is done |
| Network.NoRateLimitsAhead | src/network.rs:39-40 | a run of statuses other than 429 stays one after its first reply is used |
| Network.RateLimitedOnceScenario | src/network.rs:34-74 | for two URLs with replies 200, 429 and 200, the trace is exactly the expected one, with `2/2` on both lines for the second URL and one 60-second sleep, and the run completes |
| Network.Submit | src/network.rs:34-74 | the loop computes `Run` from the initial state. Completed means an empty queue, index `count + 1` and every URL accounted for. Exhausted means every reply was used. Aborted means the last reply was a transport error |
| Network.SubmitOutcome | src/network.rs:34-74 | the run from the initial state uses at most the replies given; unless it aborts it keeps the invariant; a completed run has an empty queue, index `count + 1` and every input URL as a final outcome exactly as often as listed; an exhausted run has URLs left and has used every reply; an aborted run ended on a transport error and lost the popped URL |
| Network.AbortRun | src/network.rs:40 | when the next reply is a transport error, the run aborts right after popping and sending the front URL |
| Network.Report | src/network.rs:44-70 | the `match status` arms: the log line and optional `message`, then the sleep and requeue on 429, or the index advance |
| Network.Drained | src/network.rs:39-71 | when the queue is empty, every input URL has exactly one final outcome, and the index is `count + 1` |
| Network.LoopStep | src/network.rs:39-70 | an iteration with a status keeps the loop invariant and leaves the rest of the run unchanged |
| Network.LoopRun | src/network.rs:39-70 | the rest of the run after an iteration that got a status equals the rest of the run before it |
| Program.KeepNonBlank | src/main.rs:38 | at most as many lines come out as went in, and none of them is blank |
| Program.KeepNonBlankAppend | src/main.rs:37-39 | the filter commutes with concatenation, so the kept lines stay in input order |
| Program.KeepNonBlankMembers | src/main.rs:38 | a line is kept exactly when it is in the input and is not blank |
| Program.KeepCons | src/main.rs:38 | the first line is kept exactly when `trim()` of it is non-empty, equivalently when it is not blank, and the rest is filtered the same way |
| Program.ReadLines | src/main.rs:37-39 | every URL line is free of `'\n'` and not blank |
| Program.ReadLinesOfLines | src/main.rs:37-39 | text made of lines joined by `'\n'` reads back as exactly its non-blank lines, in order and untrimmed |
| Program.CarriageReturnKept | src/main.rs:37-39 | a line of a CRLF file keeps its `'\r'` in the URL |
| Program.JoinTerminated | src/main.rs:37 | a buffer ending in a line break has an empty last piece |
| Program.KeepBeforeEmpty | src/main.rs:38 | an empty last piece is dropped and the line before it is kept |
| Program.Read | src/main.rs:33-56 | a readable file gives `ReadLines` of its text and a successful standard input `ReadLines` of what it yielded; a file that cannot be read, or a failing standard input, gives the error; every URL line is free of `'\n'` and not blank |
| Program.ReadBranchesAgree | src/main.rs:33-56 | the file branch and the standard-input branch give the same list for the same text |
| Program.Credential | src/main.rs:81-82 | a key given on the command line wins. Otherwise the key is the environment variable's value, present exactly when the variable is set |
| Program.ExitCode | src/main.rs:71-92 | status 0 exactly when the run completes, no status while a run is still going, and 1 in every other case |
| Program.Execute | src/main.rs:59-93 | the filter is `to_filter`. A read error is returned, and an empty list stops before any key is looked at. A missing key stops the run, and both keys present submit the list read with those keys, as `Run` prescribes |

## Left out

- The HTTP client: the `reqwest` builder, the user agent, connection logging, TLS and form encoding are not modelled. `send`'s exchange is an input: a `Status` with its decoded string map, or a `TransportError`. That error also stands for a failed JSON decode.
- The `debug!` dump of each response (`src/network.rs:42`), the log timestamps and formatting, and `env_logger` set-up are not modelled. Only the filter `to_filter` selects is.
- The Tokio runtime and the real 60-second sleep are not modelled. A sleep is a `Slept(60)` event.
- The model has no `usize` bound on the index or the count. They cannot overflow for any list that fits in memory.
- `clap` parsing, `--help` and `--version` are not modelled. The parsed `Arguments` value is an input.
- Loading the dotfile with `dotenv` is not modelled. The environment map is the one after the dotfile was loaded. A variable that is not valid Unicode is treated as absent, as `env::var(..).ok()` makes it.
- File and standard-input reading are not modelled. Their text is an input. Every reason a named file cannot be read (missing, no permission, not UTF-8) is the one value `Unreadable(path)`; the model does not tell them apart.
- Text.TrimStart: only ASCII whitespace is trimmed. Rust's `trim` also removes the other Unicode `White_Space` characters.
- Network.Submit: a run that keeps getting 429 loops forever in the source. The model bounds it by the replies given and reports `Exhausted`.
- Network.Submit: the method returns its loop locals besides the verdict, so that what the run did can be stated. The source returns only `Ok(())` or the error.
- `src/config.rs` is not part of this model: it is not declared as a module of the crate.
