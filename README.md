# bookkeeper dispatcher, modelled in Dafny

bookkeeper is a Telegram bot that records expenses. A registered user sends a
line such as `taxi 23.8`; the bot parses it into a payment, appends a row to a
Google sheet, replies "roger" to the sender and sends a "note" to the other
users. This project models the logic of `serve.go`:

- the `-users` flag parser (`parseUsers`) and the admin lookup in `NewServer`;
- the expense-line expression `([^\d]{2,})(\d+(?:\.\d*)?)\s*$` and
  `parseMessage`. The expression is rewritten as a scan from the right and
  proved equal to the declarative match (`Record.MatchAt`) with Go's
  leftmost-first semantics;
- the retry combinator `willRetry`, over the outcomes of successive calls;
- the `Server`: the chat-destination map, the choice of who gets a reply, a
  notification or an error report, the row built by `Payment.Values`, and
  the poll offset of `serve`.

Files: `wrappers.dfy` (Option, Result), `errors.dfy` (one error per error
site), `gostrings.dfy` (the Go library calls serve.go depends on:
`strings.Split`, `strings.Trim`, `strconv.ParseInt`), `users.dfy`,
`record.dfy`, `retry.dfy` and `server.dfy` (module `Dispatch`).

Modelling choices:

- Go ranges over a map in an unspecified order. The admin loop and the
  notification loop pick their next key with `:|`, so the proofs hold for
  every order.
- Goroutines run one after another. The `sync.Map` is a `map` with
  insert-if-absent. Every `mustSendMessage` call is appended to the `sent`
  field. The outcome of a send is only logged, so it is not modelled.
- The outside world is given as parameters (`Dispatch.Env`):
  - `floatOk(lexeme)` says whether `strconv.ParseFloat` accepts the amount;
  - `clock(u)` is `time.Now()` when update `u` is parsed;
  - `append(row)` is the result of `Sheet.Append`;
  - `rounds[k](offset, attempt)` is what `GetUpdates` returns.
- The amount is kept as its decimal lexeme, not as a float.
- `params.Offset`, a local of `serve`, is the `offset` field of the Server.
  `Serve` runs a finite number of the endless loop's rounds.

Three consequences of the code that are easy to miss:

- `room101 45.50` is rejected: only one non-digit, the blank, stands
  before the final number, and group 1 needs two (`Record.Room101Example`).
- `LoadOrStore` keeps the first chat a sender was seen in; later messages
  from other chats do not move it (`Dispatch.FirstChatWins`).
- Startup can also fail when id 0 carries the admin's name: 0 is the "not
  found" value of `s.admin`, and when other ids carry the name too, the
  map's iteration order decides whether 0 is the id kept
  (`Dispatch.NewServer`, `Users.ResolveAdmin`).

## Model

| member | source | states |
|---|---|---|
| GoStrings.Split | serve.go:58 | `strings.Split` with a one-character separator: at least one piece, and no piece holds the separator |
| GoStrings.JoinSplit | serve.go:58 | joining the pieces with the separator gives back the string |
| GoStrings.SplitJoin | serve.go:60 | splitting a join of separator-free pieces gives back the pieces |
| GoStrings.Trim | serve.go:160 | `strings.Trim(s, " ")` is the middle of s between two runs of blanks, and neither end of it is a blank |
| GoStrings.ParseInt64 | serve.go:65 | `strconv.ParseInt(s, 10, 64)` yields only int64 values |
| GoStrings.ParseFormatInt | serve.go:65 | every int64 printed in base 10 parses back to itself |
| GoStrings.ParseInt64Rejects | serve.go:65-68 | a character other than a digit or a leading sign is a parse error |
| GoStrings.ParseInt64Chars | serve.go:65 | a string ParseInt accepts holds only digits, but for a leading sign |
| GoStrings.Digits | serve.go:65 | the decimal numeral of n has value n and no leading zero (the inverse used by the round trips) |
| Users.ParseUsers | serve.go:55-74 | the loop returns exactly the fold `UserList` of its input |
| Users.RegisterSucceedsIff | serve.go:58-73 | the user list parses iff every comma-separated piece splits on `=` into two parts whose second is an int64 |
| Users.RegisterFirstError | serve.go:61-68 | on failure the error names the first malformed piece |
| Users.RegisterKeys | serve.go:70 | the parsed map's ids are exactly the ids the pieces declare |
| Users.RegisterKeeps | serve.go:70 | an id no piece declares keeps the name it already had |
| Users.RegisterLastWins | serve.go:70 | each id maps to the name of the last piece that declares it |
| Users.ParsePairSound | serve.go:60-68 | a parsed piece is `name=number` with no `=` in the name |
| Users.ParsePairFormat | serve.go:60-70 | every well-formed `name=id` piece parses back to (name, id) |
| Users.ParsePairShape | serve.go:60-70 | any piece `name=numeral` with no `=` in the name and a numeral ParseInt accepts (`+5`, `007`, `-0`) parses to that name and value |
| Users.UserListEmpty | serve.go:58-63 | the empty flag value fails: it is one empty piece without `=` |
| Users.UserListRoundTrip | serve.go:55-74 | a list written as `name=id,...` parses back to the table of those users, later entries overwriting earlier ones |
| Users.ResolveAdmin | serve.go:43-47 | in any iteration order the result is 0 or an id named as the admin; it is 0 when no id is, and one of those ids when some are |
| Dispatch.NewServer | serve.go:31-53 | a malformed user list fails with its parse error; a success holds the parsed users with empty chat map, outbox and offset, and its admin id is nonzero and named as the admin; a valid list fails only with AdminNotFound, and only when no id, or id 0, carries the admin's name; when some ids carry it and 0 is not among them the server is built |
| Record.FindRecord | serve.go:155 | the spans found lie in order inside the text |
| Record.FindRecordMatches | serve.go:17 | what the scan returns is a match of the expression, and group 1 is a whole run of non-digits |
| Record.FindRecordFindsEveryMatch | serve.go:17 | any match is found, with the same number and a start at least as far left (leftmost-first) |
| Record.MatchUnique | serve.go:17 | at one start the expression has at most one match |
| Record.FindRecordNone | serve.go:155-158 | the scan finds nothing iff the expression matches nowhere |
| Record.ParseMessage | serve.go:149-174 | a payment comes only from a registered sender, carries the sender's name and the time of parsing, and has an empty category |
| Record.UnknownSenderRejected | serve.go:150-153 | an unregistered sender fails with UnknownUser whatever the text |
| Record.ParseMessageAccepts | serve.go:155-173 | a matched line with an accepted amount gives the payment whose name is the whole non-digit run before the number, trimmed of blanks, and whose money is the number |
| Record.ParseMessageRejectsText | serve.go:155-158 | a registered sender's unmatched line fails with InvalidMessage |
| Record.ParseMessageBadAmount | serve.go:161-163 | a registered sender's matched line whose amount ParseFloat refuses fails with BadAmount of that amount |
| Record.PaymentShape | serve.go:160-161 | a payment's name holds no ASCII digit, and its money is digits with an optional `.` and digits |
| Record.TrimNoDigits | serve.go:160 | trimming keeps a digit-free label digit-free |
| Record.RowOfParsedMessage | serve.go:188-196 | the appended row is exactly [name, money, sender's name, "", time] |
| Record.Values | serve.go:188-196 | the row has five cells |
| Record.TaxiExample | serve.go:149-174 | `taxi 23.8` from the registered Sirius gives label `taxi` and amount `23.8` |
| Record.Room101Example | serve.go:17 | `room101 45.50` is not matched |
| Retry.WillRetry | serve.go:214-227 | between 1 and n+1 calls; it stops at the first success; it succeeds iff one of the first n+1 calls does, and otherwise returns the last call's error; the result is the reference `Outcome`; before retry i it sleeps 100·10^i ms |
| Retry.FirstSuccessIff | serve.go:214-227 | the reference outcome succeeds iff one of the calls it may make succeeds |
| Retry.BackoffGrows | serve.go:220 | each sleep is ten times the one before |
| Retry.BackoffOfFourRetries | serve.go:220 | with 4 retries the sleeps are 100, 1000, 10000 and 100000 ms |
| Dispatch.StoreIfAbsent | serve.go:105 | `LoadOrStore` adds the sender and never changes a stored chat |
| Dispatch.KnownChatKept | serve.go:105 | across any updates a stored chat stays |
| Dispatch.FirstChatWins | serve.go:105 | a new sender's chat is that of their first message, registered or not, parsable or not |
| Dispatch.SenderWithoutMessageUnknown | serve.go:105 | only senders of some update enter the chat map |
| Dispatch.ChatsAfterConcat | serve.go:94-96 | handling two runs of updates in turn is handling their concatenation |
| Dispatch.SuccessfulUpdateRouting | serve.go:118-133 | after a successful append the message chat gets exactly one reply, first; then the notes follow an enumeration of the recipients (registered users other than the sender with a known chat), one note per recipient to that recipient's chat, and nothing else is sent |
| Dispatch.FailedUpdateRouting | serve.go:136-147 | on a parse or append failure there is no reply and no note: one error report to the admin's chat if it is known, none otherwise |
| Dispatch.NextOffsetPassesBatch | serve.go:98-100 | for increasing ids the new offset is past every id in the batch and never moves back |
| Dispatch.NextOffsetConcat | serve.go:98-100 | moving the offset past two batches in turn is moving it past their concatenation |
| Dispatch.PolledFails | serve.go:84-91 | a round's poll fails iff all five GetUpdates calls at that offset fail, and then with the last call's error wrapped as "could not get updates" |
| Dispatch.ChainedConcat | serve.go:94-96 | the sends of two runs of updates handled in turn are the sends of their concatenation |
| Dispatch.Server.constructor | serve.go:32-36 | a fresh server has the given users and admin, no chats, no sends, offset 0 |
| Dispatch.Server.ReportError | serve.go:136-147 | the error report goes to the admin's chat only, and only when it is known |
| Dispatch.Server.HandleUpdate | serve.go:104-116 | the chat map gets the sender's chat if absent, before parsing; the new sends are routed as `Routed` says |
| Dispatch.Server.Acknowledge | serve.go:118-133 | one reply to the message chat, then one note per recipient |
| Dispatch.Server.Notify | serve.go:121-133 | the notes go to the recipients, each once, in some order |
| Dispatch.Server.DispatchBatch | serve.go:94-96 | the batch is handled in order: the chat map is that after all its updates, and the new sends are one run per update, each routed as `Routed` says |
| Dispatch.Server.PollRound | serve.go:84-100 | one round polls at the current offset: if the retried poll fails, it returns that error and changes nothing; otherwise the polled batch is dispatched in order, with each update's sends routed, and the offset moves one past its last id, staying put for an empty batch |
| Dispatch.Server.Serve | serve.go:76-102 | the updates handled are exactly the batches of the rounds up to the first poll that fails, each polled at the offset the previous ones left; the error returned is that poll's; the chat map, the offset and the routing of every new send follow those updates; earlier sends are kept |

## Left out

- `sheets.go`: OAuth, the token file, the hourly refresh and the Sheets API call. They are foreign APIs and file I/O; the outcome of `Append` is a parameter.
- `main.go`: flag parsing and reading the credentials file, which are plumbing.
- Goroutines and the concurrency guarantees of `sync.Map`. Handling and sending are sequential.
- The text of messages: `Payment.String` (the `%.2f` amount) and the "roger:", "note:" and error wording. Sends carry a structured `Text`.
- `strconv.ParseFloat` and its range error: an abstract `floatOk` predicate on the lexeme.
- `time.Now`, `time.Sleep` and formatting the time in Beijing time. The time is a parameter, the sleeps are returned, and the row holds a `Time` cell.
- The retries of `sendMessage`. A send's outcome is only logged, so `sent` records every `mustSendMessage` call.
- Logging.
- Retry.WillRetry: the delays are unbounded milliseconds. The source's int64 nanosecond `time.Duration` overflows from retry 11 on. Both call sites use 4 retries.
- Dispatch.Server.Serve: runs a finite number of rounds of the endless loop. The request's `Limit` and `Timeout` are part of the chat API's behaviour, given by `rounds`.
- Ids and offsets are unbounded integers; the int64 overflow of `Id + 1` is not modelled.
- Updates without a message (a nil `Message` in the tgbot library) are not modelled; the tgbot library is not part of this model.
- Text is a sequence of characters. Go's regexp works on the UTF-8 runes of the text; invalid UTF-8 is not modelled.
- Dispatch.Env: the outcome of an append depends only on the row, and the parse time only on the update.
