# LokiFix in Dafny

LokiFix lets an operator drive a remote Windows machine: an MCP server on the
operator's side, an agent on the other, and one WebSocket between them. This
project models the parts of it whose correctness spans several functions, and
proves what they promise for every input, every run and every interleaving.

| file | what it models |
|---|---|
| `Transport.dfy` | the whole connection as a transition system: concurrent `SendRequest` calls, handshakes, read loops, the agent's workers, and messages that may be lost or fail to open |
| `Requests.dfy` | what callers get, whatever the interleaving; the worker semaphores; fresh ids |
| `Traces.dfy` | what a state tells about the run that led to it: who was let in, how calls ended, what was sealed and written when |
| `Links.dfy` | key agreement, coherence of the operator's fields, who can open what |
| `Scenarios.dfy` | concrete runs that show where those guarantees end |
| `Endpoints.dfy` | the classes `Server` and `Client`; each method is one critical section and one step of a run of the transition system, and promises what the whole run makes true |
| `Auth.dfy` | the auth manager as a class, against a plain history of what was asked of it |
| `Reconnect.dfy` | the agent's reconnect loop against that manager |
| `Base64.dfy`, `ConnectionString.dfy` | the codec behind connection strings and file chunks |
| `Transfer.dfy` | chunked upload and download |
| `Audit.dfy`, `Handler.dfy` | the hash-chained log and the confirm, dispatch, log sequence |
| `Glob.dfy`, `Sort.dfy`, `Grep.dfy`, `Reading.dfy`, `Edit.dfy` | the algorithms of `fileops` |
| `Csv.dfy` | the CSV state machine of `sysinfo` |
| `Text.dfy`, `Wrappers.dfy` | strings and option types |

Objects the source updates in place are classes whose methods are proved against
specification functions; loops are loops. The concurrent protocol and the
interleaved handlers are transition systems over values: a critical section is
one step, and the theorems speak about every state of every run.

Assumptions, stated as hypotheses where they are used: opening inverts sealing
under the same key and fails under another; random tokens are never repeated;
the inputs hashed in the histories compared do not collide; clocks do not run
backwards; one write or append to a disk happens entirely or not at all.

## What the proofs found

* `SendRequest` reads the cipher before it takes the lock that guards the
  connection. A caller overtaken by a reconnection between the two seals under
  the old key, and the new peer drops the request, although no two connections
  overlap (`Scenarios.StraddlingRequestDropped`). `Links.RequestsOpen` gives the
  exact condition.
* When connections do overlap, the older handler's cleanup wipes the newer
  connection's fields (`Scenarios.OverlapDisconnects`). `Links.ConnectedWhileLive`
  and `Links.StatusTruthful` say for which runs the current connection is the live
  one, and for which `IsConnected` is right, in every state.
* A connection string with a dash among its digits cannot be decoded, since
  dashes are stripped first. For ASCII this is exactly a `>` or `~` at a position
  of `url|token` that is 2 modulo 3 (`ConnectionString.AsciiRoundTripExactly`,
  `ConnectionString.TildeBreaks`).
* docs/guida-lokifix.html:923 promises a connection encrypted end to end. A call
  that seals while no connection is up and writes once one is sends its request
  in the clear, and the agent accepts it (`Scenarios.PlainRequest`). The agent
  sends a response in the clear when encrypting it fails. `Links.ClearExactly` and
  `Traces.MessageTrace` say that nothing else is ever in the clear.
* The fields of an audit entry are hashed with `|` between them, and both action
  and detail may contain one, so different entries can share their hashed text
  (`Audit.AmbiguousExactly`). The last hash of a log fixes the texts of its
  entries and nothing more (`Audit.ChainExactly`). Among entries the agent can
  write this leaves one kind of doubles: the request for an unknown tool named
  `A|x`, where `A` is a known action, and a failed action `A` on `x|A|x`
  (`Audit.LoggableTamperEvident`, `Audit.ReadOrUnknownTool`).
* docs/guida-lokifix.html:730-731 says that a reconnect issues no new session
  token. The code issues one at every accepted handshake, and the model follows
  the code; that is what makes sessions slide.
* docs/guida-lokifix.html:933 promises at most 20 simultaneous requests. Each
  connection has a semaphore of its own, and workers outlive their connection:
  the bound is 20 for each connection that still has workers
  (`Requests.WorkersBounded`), and an agent that reconnects can reach it for any
  number of connections, without overlap (`Scenarios.LimitPerConnection`).

## Model

| member | source | states |
|---|---|---|
| Requests.OwnAnswer | internal/transport/server.go:110-168 | in every interleaving a call that returns a response returns what the handler produced for the request this call sent, and the handler never runs twice for one id |
| Traces.CallOutcome | internal/transport/server.go:110-168 | a call is one that was started; it has an answer iff it received one, has failed iff sealing or writing failed, nobody was connected or its time ran out, and has returned iff it unregistered |
| Traces.MessageTrace | internal/transport/server.go:133-152 | a request on the wire was sealed under its key for the connection up at that moment, or for none, and written to its connection while that was current; a response was written by a client that was up, under its key unless sealing failed |
| Traces.HandlersAnswer | internal/transport/client.go:200-240 | every recorded response is what the handler produced for the recorded request |
| Traces.OnlyAccepted | internal/transport/server.go:214-239 | a live or current connection, or a client that is up, had its handshake accepted; a refused one, or one given up, is never up again |
| Requests.ReadLoopNeverBlocks | internal/transport/server.go:305-311 | whenever a read loop reaches the send on a call's one-slot channel the slot is free, even if the caller has timed out |
| Requests.PendingExact | internal/transport/server.go:121-131 | the keys of `pending` are exactly the ids of calls in progress, so the map is empty once all calls have returned |
| Requests.WorkersBounded | internal/transport/client.go:138-168 | each semaphore holds exactly one token for every request of its connection being handled, at most 20; all connections together handle at most 20 times as many as there are connections with workers |
| Requests.WorkerNeverBlocks | internal/transport/client.go:164-168 | a worker that is done never waits to give its slot back |
| Scenarios.LimitPerConnection | internal/transport/client.go:138-139 | for every c a run without overlap and with fresh ids in which c connections were lost and 20 requests of each are being handled at once |
| Requests.CounterIdsDistinct | internal/mcp/server.go:444 | calls that drew different numbers from the counter, in whatever order they start, have different ids, which is what the theorems above ask of a run |
| Scenarios.SharedIdMixesAnswers | internal/transport/server.go:121-125 | why they ask it: two calls under one id, and one returns the other's answer |
| Links.KeyAgreement | internal/transport/client.go:103-120 | both ends of every connection derive their key from the same secret, also when a stale session token falls back to the code token |
| Links.Coherent | internal/transport/server.go:253-276 | `conn`, `cipher` and `agentInfo` are all nil or all from one live handshake |
| Links.ConnectedWhileLive | internal/transport/server.go:253-276 | in every state of a run a connection is the current one exactly from its install to its cleanup, iff none is installed while another is live |
| Links.StatusTruthful | internal/transport/server.go:92-96 | in every state of a run `IsConnected` tells whether some handler is live, iff no handler cleans up while another is live |
| Links.ResponsesOpen | internal/transport/server.go:283-297 | the read loop opens a sealed response iff the operator holds the key of its connection at that moment, and without overlap always |
| Links.RequestsOpen | internal/transport/server.go:133-152 | a request opens at the agent iff no connection was up when it was sealed, or the one that was had the secret of the one written to; no install or cleanup between sealing and writing suffices, and then it is never in the clear |
| Links.ClearExactly | internal/transport/server.go:133-143 | a request on the wire is in the clear iff it was sealed while no connection was up; a response that is sealed carries the key of both ends |
| Scenarios.PlainRequest | internal/transport/server.go:133-152 | a run without overlap in which a request goes out in the clear on a keyed connection and is accepted |
| Scenarios.StraddlingRequestDropped | internal/transport/server.go:135-151 | a run without overlap in which a request cannot be opened |
| Scenarios.OverlapDisconnects | internal/transport/server.go:272-276 | a run in which a live handler is reported as disconnected |
| Endpoints.Server.Register | internal/transport/server.go:121-125 | the register step of the run; with fresh ids it displaces no other call's channel |
| Endpoints.Server.Unregister | internal/transport/server.go:127-131 | the unregister step; with fresh ids the channel removed is the call's own |
| Endpoints.Server.Target | internal/transport/server.go:145-152 | the connection check and write of `SendRequest`; the connection is a live one, and the message was sealed for it unless an install or cleanup came between |
| Endpoints.Server.Channel | internal/transport/server.go:305-311 | the read loop's lookup; with fresh ids the channel found belongs to the unanswered call the response is for, and has room |
| Endpoints.Server.Install | internal/transport/server.go:241-263 | key choice and installation, only after an accepted handshake; an agent that heard of it holds the same key |
| Endpoints.Server.Clear | internal/transport/server.go:272-276 | cleanup; without overlap the fields wiped are its own connection's |
| Endpoints.Server.Status | internal/transport/server.go:92-107 | `IsConnected` and `GetConnectionInfo` agree and report a live handler; `IsConnected` is right about all handlers if none cleaned up while another was live |
| Endpoints.Client.Accept | internal/transport/client.go:103-120 | the end of `Connect`: the key comes from the token offered, not from the one just issued |
| Auth.Manager.GenerateCode | internal/auth/auth.go:52-74 | records an issued code; a colliding code is overwritten |
| Auth.Manager.ValidateToken | internal/auth/auth.go:78-96 | true iff the token was issued at most 15 minutes ago, was never accepted, and its code was not overwritten, for any iteration order |
| Auth.Manager.GenerateSessionToken | internal/auth/auth.go:126-140 | records an issued session token |
| Auth.Manager.ValidateSessionToken | internal/auth/auth.go:143-160 | true iff the token was issued at most 24 hours ago and not revoked since |
| Auth.Manager.RevokeSessionToken | internal/auth/auth.go:163-167 | records the revocation |
| Auth.Manager.Cleanup | internal/auth/auth.go:170-184 | sweeps both tables and changes no later answer |
| Auth.FirstTryWins | internal/auth/auth.go:76-96 | of all tries of a one-time token the first one within 15 minutes of its issue, while its code was not issued again, is accepted and no other, so it is accepted at most once |
| Auth.SessionAnswers | internal/auth/auth.go:142-167 | a session token is accepted iff it was issued at most 24 hours before and not revoked in between |
| Auth.SweepsDoNotMatter | internal/auth/auth.go:170-184 | two managers asked the same at the same times give the same answers throughout, whatever was cleaned up when, or never |
| Reconnect.Authenticate | internal/transport/server.go:214-239 | session token first, one-time token second, and a new session token for everyone accepted |
| Reconnect.Connect | internal/transport/client.go:43-123 | what one attempt comes to, exactly, by the history the operator has at that moment |
| Reconnect.ConnectAndRun | cmd/lokifix-agent/main.go:99-166 | for every schedule of attempts, other agents, codes and clean-ups: every outcome is the one the operator's history and the stored token call for at that moment; the stored token is the one issued at the latest handshake the agent knows it passed, and stands in the history; a reconnect is accepted on it, with no one-time code tried, iff at most 24 hours have passed; the agent gives up after exactly six failures in a row |
| Reconnect.ReconnectSlides | internal/auth/auth.go:143-160 | the 24 hours slide: a reconnect is accepted on the stored token iff at most 24 hours have passed since the latest handshake, by session or by code, that brought a new one |
| Reconnect.AttemptOutcome | internal/transport/client.go:43-123 | an attempt gets in iff its session token or its one-time token is good, a stale session token falling back to the code; everyone let in is issued the new token, and the agent stores it iff it hears of it |
| Reconnect.StreakIsSix | cmd/lokifix-agent/main.go:112-126 | the retry counter passes its limit iff the last six attempts all failed on one side or the other |
| Reconnect.TokenStands | cmd/lokifix-agent/main.go:145-148 | before every turn the stored token is that of the latest renewal, issued then and not revoked |
| Base64.UrlRoundTrip | internal/auth/auth.go:102 | decoding inverts the raw URL encoding for all bytes |
| Base64.GroupSpelled | internal/auth/auth.go:102 | three bytes become four sextets of the same number; `TailSpelled` says what the last one or two become |
| Base64.UrlText | internal/auth/auth.go:102 | the text has the table's digit for each sextet |
| Base64.StdText | internal/mcp/server.go:538 | the same for the standard table, padded to groups of four |
| Base64.UrlDecodesExactly | internal/auth/auth.go:112-115 | a text decodes iff, newlines apart, it has only digits and no lone one at the end |
| Base64.StdDecodesExactly | internal/fileops/fileops.go:615-618 | a text decodes iff, newlines apart, it is digits and padding in groups of four |
| Base64.StdRoundTrip | internal/mcp/server.go:538 | decoding inverts the padded standard encoding for all bytes, none included |
| ConnectionString.RoundTripExactly | internal/auth/auth.go:100-123 | decoding an encoded pair returns it iff the encoding has no dash and the url no pipe |
| ConnectionString.AsciiRoundTripExactly | internal/auth/auth.go:100-123 | for ASCII this is iff no `>` or `~` sits at a position that is 2 modulo 3 and the url has no pipe |
| ConnectionString.DecodeExactly | internal/auth/auth.go:107-123 | what is decoded is cut at its first pipe; without a pipe it is an error |
| ConnectionString.SurvivesSeparators | internal/auth/auth.go:108-110 | spaces and dashes may be inserted anywhere into a dash-free string, any number of them |
| ConnectionString.SurvivesOne | internal/auth/auth_test.go:62-82 | one space or dash inserted at any place |
| ConnectionString.TildeBreaks | internal/auth/auth.go:110 | a url that does not survive |
| Transfer.UploadFile | internal/mcp/server.go:492-569 | complete iff every chunk succeeds, and then the remote file is the local data; otherwise it stops at the first chunk that does not succeed, reported as failed iff it was handled and answered, and leaves exactly the chunks before it, and that one too iff it landed and only its answer was lost; a guarded path is asked about once, and after a refusal nothing was written and nothing more is sent |
| Transfer.SendChunk | internal/mcp/server.go:525-561 | one chunk takes a file holding the chunks before it to one holding one more iff it lands, whether or not the answer comes back |
| Transfer.Agent.UploadChunk | internal/fileops/fileops.go:614-646 | first chunk replaces, later ones append, refusals change nothing |
| Transfer.Agent.Handle | internal/agent/handler.go:153-158 | only the first chunk of a guarded path asks, and a refused one writes nothing |
| Transfer.DownloadChunk | internal/fileops/fileops.go:649-679 | the size is that of the stat, the bytes are those of the later read, and an empty read is an error |
| Transfer.DownloadFile | internal/mcp/server.go:572-649 | saved iff the file is readable and all requests and writes succeed; then the local file is a prefix of the grown remote file, between the first reported size and the requested chunks long, and equal to it if it did not change; a failure is at the first chunk whose request or write fails, says which of the two it was, and leaves whole chunks |
| Audit.UniqueParse | internal/audit/audit.go:116-122 | the five hashed fields can be read back, whatever the detail contains |
| Audit.ChainExactly | internal/audit/audit.go:103-150 | two histories end in the same hash iff they have the same hashed texts entry by entry, whatever the fields contain |
| Audit.TamperEvident | internal/audit/audit.go:103-150 | if only details contain separators, two histories ending in the same hash are equal in length, times, actions, full details and results |
| Audit.AmbiguousExactly | internal/audit/audit.go:116-122 | an entry shares its hashed text with a different one, times and results being separator-free, iff its action or its detail contains a separator |
| Audit.LoggableDoubles | internal/agent/handler.go:46-86 | two different entries the agent can write share their hashed text iff one is an unknown tool's and the other a failed known action whose detail repeats that name's rest around it |
| Audit.LoggableTamperEvident | internal/audit/audit.go:103-150 | two logs the agent can write end in the same hash iff they are the same up to such doubles |
| Audit.ReadOrUnknownTool | internal/agent/handler.go:270 | a failed read and an unknown tool that no hash chain tells apart |
| Audit.Logger.Log | internal/audit/audit.go:103-158 | appends one entry with the fields given, at most 200 characters of the detail shown, chained to the one before by the hash of its full text |
| Audit.Logger.Summarize | internal/audit/audit.go:167-179 | the counts are right for every action and sum to the number of entries |
| Audit.CountsOccurrences | internal/audit/audit.go:167-179 | the counts are the multiplicities of the actions and of the results |
| Audit.PrintedRows | internal/audit/audit.go:194-199 | the rows printed account for every entry but the session markers |
| Handler.RunKeeps | internal/agent/handler.go:46-86 | in every interleaving each request leaves exactly its own story in the log |
| Handler.ApprovedBeforeRun | internal/agent/handler.go:56-73 | a request needing confirmation runs only after its own APPROVED entry |
| Handler.RefusedNeverRuns | internal/agent/handler.go:58-66 | a denied request never runs |
| Handler.UserDecides | internal/agent/handler.go:56-66 | with or without a logger, a request needing confirmation runs only if the user said yes, never if the user said no, and once answered it has run iff the user said yes |
| Handler.EntriesConserved | internal/agent/handler.go:46-86 | once all are answered, entries = tools run + approvals + denials, and every request was either run or denied |
| Handler.SummaryConserved | internal/audit/audit.go:167-179 | the summary of the log that any interleaving leaves adds up to that number |
| Handler.AnsweredLeaves | internal/agent/handler.go:46-86 | what an answered request leaves, in order: its approval, its run, one entry saying OK iff the tool succeeded; a request turned down leaves one denial |
| Handler.Handle | internal/agent/handler.go:46-86 | one request from start to end grows the log by its approval and its own entry, OK iff the tool succeeded, or by its denial |
| Handler.StoryRecords | internal/agent/handler.go:46-86 | and these are the records of the story the interleavings are made of |
| Glob.MatchDoubleGlob | internal/fileops/fileops.go:209-237 | terminates, and is true iff the path splits into one run for each pattern segment, any run for `**` and one matching name otherwise |
| Glob.CollapseKeepsMatches | internal/fileops/fileops.go:209-237 | collapsing adjacent `**` never changes the answer |
| Sort.ExchangeSort | internal/fileops/fileops.go:258-264 | sorts in place into non-increasing times, a permutation of the files |
| Sort.SortByModTime | internal/fileops/fileops.go:240-270 | the same paths, newest first |
| Grep.GrepContent | internal/fileops/fileops.go:376-432 | whole blocks of match and context, in order, until the limit is reached |
| Grep.BlockShows | internal/fileops/fileops.go:399-422 | a match is shown with exactly the lines of its window, each once, in order, under its own number |
| Grep.BlocksExactly | internal/fileops/fileops.go:397-427 | the blocks are those of all matching lines of wanted files, and of nothing else |
| Grep.CutExactly | internal/fileops/fileops.go:423-425 | what is returned is whole blocks up to the first with which the limit is reached |
| Grep.MatchesAreHits | internal/fileops/fileops.go:482-487 | the count of a file is the number of its matching lines |
| Grep.GrepFilesOnly | internal/fileops/fileops.go:435-464 | the file column of the counts under the same limit |
| Grep.GrepCount | internal/fileops/fileops.go:467-501 | the first files with matches and their numbers of matching lines |
| Grep.ContentTrue | internal/fileops/fileops.go:397-427 | every entry is a true line of a wanted file, and the total is at most limit + context before + context after |
| Grep.ContentAgreesWithCount | internal/fileops/fileops.go:376-501 | without context, content mode is the first lines of all matches, and below the limit has exactly Count lines for every file |
| Reading.ReadFile | internal/fileops/fileops.go:21-66 | the page, line by line with number and tab, `Lines` = min(n, offset + limit + 1), and `Truncated` iff n > offset + limit |
| Reading.PagesNumbered | internal/fileops/fileops.go:44-54 | consecutive pages concatenate to all lines, line k in place k under the number k + 1 |
| Reading.ContentsLoseNothing | internal/fileops/fileops.go:60-65 | and so do their texts |
| Edit.EditFile | internal/fileops/fileops.go:79-103 | succeeds iff the text occurs once, or at all with replace_all, and both modes write the pieces around the occurrences joined by the new text |
| Edit.PiecesCut | internal/fileops/fileops.go:86-101 | the pieces are cut at leftmost, non-overlapping occurrences |
| Edit.PiecesRejoin | internal/fileops/fileops.go:86-101 | putting the old text back between them restores the file |
| Edit.EmptyTarget | internal/fileops/fileops.go:86-93 | an empty text occurs before every character and at the end |
| Edit.CutUnique | internal/fileops/fileops.go:86-101 | there is only one such split |
| Edit.ReplaceAllLength | internal/fileops/fileops.go:93 | replace-all changes the length by count times the difference |
| Csv.ParseLine | internal/sysinfo/sysinfo.go:340-359 | the loop computes the fields of the two-state machine |
| Csv.FieldsAreCuts | internal/sysinfo/sysinfo.go:340-359 | the fields of any line are its pieces between the commas with an even number of quotes before them, each without its quotes and outer white space |
| Csv.CutsExist | internal/sysinfo/sysinfo.go:340-359 | every line can be cut like that |
| Csv.ParseUndoesPrint | internal/sysinfo/sysinfo.go:340-359 | parsing an all-quoted line, with any white space around it, gives back every field without its quotes and outer white space |
| Text.TrimCore | internal/sysinfo/sysinfo.go:341 | trimming takes the white space off a trimmed core, and nothing else |
| Csv.RoundTripExactly | internal/sysinfo/sysinfo.go:340-359 | unchanged iff no field has a quote or outer space |

## Left out

- WebSocket, HTTP, tunnel, stdio and JSON: messages are values on a channel that may lose them, and a cancelled context is a step that may happen.
- Ping and pong: they touch none of the state modelled here.
- AES-GCM, HKDF, SHA-256 and crypto/rand: an opaque key, an uninterpreted hash and tokens given from outside.
- Liveness: a call whose answer was lost waits for its context, so only safety is claimed.
- Handler panics, and envelopes whose payload does not unmarshal: the agent's error reply to them is one more response of the handler.
- The danger pattern lists, tool tables, parameter unmarshalling and all display text.
- The log file's own lines and the report file; `Summarize` gives the numbers they print.
- Characters stand for bytes where text is cut or counted (the 200-character display limit, `strings.Count` of an empty text); a cut inside a multi-byte character is not modelled.
- Files changed by third parties during a transfer, other than a download's source growing; an append that writes a part of its data.
- A lost upload request that the agent executes only after the operator has already given up: the remote file then changes after `Transfer.UploadFile` has returned.
- Endpoints.Server: the unsynchronised reads of `cipher` are steps of `Transport`, not methods of the class.
- Auth.Manager: `GenerateCode` returns a pointer into the table in the source; that alias is not modelled.
- Reconnect.Authenticate: the two validations and the issue of one handshake happen at one instant.
- Reading.ReadFile, Edit.EditFile: the file's size and the errors of opening it; both start from what was read.
- The one-message `file_upload` and `file_download` of the agent, `ListDir`, `DeleteFile` and `WriteFile`.
- Handler.Handle: both log entries of one request carry the same time.
- Transport: a dead connection keeps its messages until they are lost, and any live loop of the connection may read them in any order; both only add behaviours.
