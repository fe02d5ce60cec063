# courier-apns request handler, modelled in Dafny

courier-apns is a small daemon that sends Apple Push Notification service
(APNs) pushes for the Courier IMAP server. Each connection on its Unix
socket carries one line: the path of a Maildir. The daemon lists the
mailbox's `.push` directory. Each file there is a JSON subscription record
(`Device`: account id, device token, mailboxes), and the daemon pushes one
notification per decodable record. It writes back a one-line reply:

- `Push <dir> disabled` when the directory cannot be listed or is empty;
- otherwise `Push <dir> to`, then ` <first 8 token chars> (<status>)` per
  response, then a newline.

A subscription is deleted when the service answers 400, or 410 with a
timestamp later than the file's modification time. A transport error ends
the whole process with `log.Fatal`. A token shorter than 8 characters makes
the slice `[0:8]` panic.

This project models that handler in two layers.

- `Pipeline` is the pure specification. `Step` handles one directory
  entry. `Run` is the loop, a left fold over the listing. `Serve` is a
  whole request. A declarative description (`Subscriptions`, `Settled`,
  `Reports`, `Notifications`, `PrunedNames`) is proved equal to what the
  fold computes.
- `Host` is the handler as it runs, over three objects. `Conn` is the
  request line, the bytes written and the closed flag. `Client` is the push
  service, with a log of what it was sent. `FileSystem` maps each mailbox to
  its `.push` listing. `Host.HandleRequest` and the methods it calls are
  proved to leave these objects exactly as `Serve` says.

Supporting modules:

- `Decimal`: Go's `%v` rendering of a status code, with a reader that
  inverts it.
- `Dispatch`: the notification, the pruning rule, and the reply fragments
  with a parser that reads them back.
- `Scenarios`: single-record requests, including a concrete run where a
  subscription is kept on 200 and removed on 410.

The outcome of a request is one of three exits:

- `Normal`: the newline is written and the deferred `conn.Close()` runs.
- `FatalLog`: the process exits without running deferred calls, so nothing
  more is written and the connection is not closed.
- `Panic`: a short token panics after its push was sent. No fragment is
  written for it, and the deferred close runs.

The doc comment at courier-apns.go:45-46 says only status 410 deletes a
subscription. The code at lines 99-100 also deletes on 400. The model
follows the code.

Times are integers counted in nanoseconds, the unit of Go's
`time.Duration`. The expiration is therefore `now + 24 * 7 * 3600 * 10^9`.

## Model

| member | source | states |
|---|---|---|
| Records.Device | courier-apns.go:36-40 | a subscription record: account id, device token and mailboxes; its decoding from JSON is the `parse` parameter, and the fields the handler uses are stated by `Dispatch.NotifyFields` |
| Decimal.ShowNat | courier-apns.go:95 | the rendering of a natural number is a non-empty string of digits, and it starts with `0` only when it is exactly `0` |
| Decimal.Show | courier-apns.go:95 | the `%v` rendering of a status code is a numeral with a minus sign exactly when the code is negative and no leading zero, so `-0` and `0200` are never written; `ReadShow` is its round trip |
| Decimal.ReadShowNat | courier-apns.go:95 | the source has no reader; this reader is the inverse of the line-95 number format, written for the round trip: reading back the digits of a natural number gives that number |
| Decimal.ReadShow | courier-apns.go:95 | reading back the rendering of any integer status gives that integer, so distinct statuses render differently |
| Dispatch.Payload | courier-apns.go:86-87 | the payload text with the account id inserted verbatim; `PayloadCarriesAccountId` states that the id reads back unchanged |
| Dispatch.Notify | courier-apns.go:82-88 | the notification for a record; `NotifyFields` states its topic, token, one-week expiration and payload |
| Dispatch.PayloadCarriesAccountId | courier-apns.go:86-87 | the JSON payload embeds the record's account id so that it can be extracted again unchanged |
| Dispatch.NotifyFields | courier-apns.go:82-88 | the notification carries the certificate's topic, the record's device token, an expiration exactly seven days of nanoseconds after `now`, and a payload from which the account id reads back |
| Dispatch.ShouldRemove | courier-apns.go:99-100 | a file is pruned for status 400 always, for 410 exactly when its modification time is strictly before the response timestamp, and never for any other status |
| Dispatch.Fragment | courier-apns.go:95 | the ` <token prefix> (<status>)` fragment; `ParseFragmentOf` states that it reads back into its report and `Scenarios.Fragment200` shows a concrete one |
| Dispatch.Line | courier-apns.go:68-95 | the fragments of a sequence of reports in order; `LineAppend`, `LineEnding` and `ParseLineRoundTrip` state its properties |
| Dispatch.LineAppend | courier-apns.go:68-95 | one more response appends exactly its fragment to the reply, after the earlier ones |
| Dispatch.LineEnding | courier-apns.go:95 | the fragments are empty exactly when there are no reports, and otherwise end with `)` |
| Dispatch.CloseParen | courier-apns.go:95 | part of the reader written as the inverse of the line-95 fragment format (the source has none): the scan stops at the first `)` at or after the start position, or at the end of the string |
| Dispatch.ParseFragment | courier-apns.go:95 | the reader of one line-95 fragment, written for the round trip (the source has none): a parsed fragment consumes at least one character |
| Dispatch.ParseFragmentOf | courier-apns.go:95 | round trip through the reader written as the inverse of the line-95 format: a fragment with an 8-character token prefix parses back into its token prefix and status, leaving the rest of the reply untouched |
| Dispatch.ParseLineCons | courier-apns.go:95 | inductive step of the round trip through the reader written as the inverse of the line-95 format: if the fragments after the first report read back into the remaining reports, the whole line reads back into all of them |
| Dispatch.ParseLineRoundTrip | courier-apns.go:95 | round trip through the reader written as the inverse of the line-95 format (the source has no reader): the fragments written for a sequence of reports parse back into exactly those reports, in order, so the reply is unambiguous |
| Pipeline.Decode | courier-apns.go:69-79 | the record an entry holds, or nothing when its file cannot be read or decoded; `SkipsUndecodable` states that such an entry is skipped |
| Pipeline.Step | courier-apns.go:69-79 | one pass of the loop body; `SkipsUndecodable` and `HaltIsFinal` state what it does to an undecodable entry and after the request died, and `Host.HandleEntry` is proved equal to it |
| Pipeline.Deliver | courier-apns.go:82-93 | push, then log.Fatal on a transport error, a panic on a short token, or reporting; `RunMatchesSubscriptions` states the outcome over the whole listing and `Host.DeliverEntry` is proved equal to it |
| Pipeline.ReportAndPrune | courier-apns.go:95-107 | write the fragment and unlink the file when `ShouldRemove` chooses it and unlinking succeeds; `RemovalFailureInvisible` states that the unlink outcome changes nothing else |
| Pipeline.Run | courier-apns.go:68-109 | the loop over the listing in order; `RunMatchesSubscriptions` states what it writes, pushes, removes and how it ends, and `Host.HandleEntries` is proved equal to it |
| Pipeline.RunPrefixStep | courier-apns.go:68 | the loop over the first i+1 entries is the loop over the first i followed by one step on entry i |
| Pipeline.Settled | courier-apns.go:89-95 | the count of leading records that get a response and have a token of at least 8 characters; the next record, if any, does not |
| Pipeline.RunMatchesSubscriptions | courier-apns.go:68-109 | the loop has done four things. It wrote one fragment per decodable record up to the first that fails, in listing order. It pushed to each of those records and to the failing one. It removed exactly the files the pruning rule chose among the delivered ones whose removal succeeded. It ends Normal only if every decodable record was delivered, with FatalLog on a transport error and Panic on a short token |
| Pipeline.HaltIsFinal | courier-apns.go:92-95 | once the request has died, no later entry writes, pushes or removes anything |
| Pipeline.HaltAt | courier-apns.go:92-95 | a request that dies at entry i has done over the whole listing exactly what it had done after entry i |
| Pipeline.SkipsUndecodable | courier-apns.go:69-79 | an entry that cannot be read or decoded adds no fragment, no push and no removal |
| Pipeline.NothingDecodedNothingDone | courier-apns.go:68-79 | a listing none of whose entries decodes leaves the loop with nothing written, pushed or removed |
| Pipeline.RemovalFailureInvisible | courier-apns.go:101-106 | whether unlinking succeeds changes neither the reply, nor the notifications sent, nor how the request ends |
| Pipeline.RemovedAreListed | courier-apns.go:99-101 | only files of entries the loop has reached are ever removed |
| Pipeline.WithoutMembers | courier-apns.go:101 | after unlinking, a directory lists exactly the entries it listed before whose names were not unlinked |
| Pipeline.WithoutTwice | courier-apns.go:101 | unlinking one set of names and then another is the same as unlinking their union |
| Pipeline.WithoutDistinct | courier-apns.go:101 | unlinking keeps a directory's names distinct |
| Pipeline.LookupDistinct | courier-apns.go:69 | in a directory with distinct names, looking up the name of entry k finds entry k |
| Pipeline.LookupWithout | courier-apns.go:69-101 | a file whose name was not unlinked is still found under that name |
| Pipeline.Serve | courier-apns.go:47-111 | one whole request; `ServeUnreadableLine`, `ServeDisabled`, `ServeNothingDecoded`, `ServeCompleted` and `ServeAborted` state its reply, pushes, directories and exit case by case, and `Host.HandleRequest` is proved equal to it |
| Pipeline.ServeUnreadableLine | courier-apns.go:52-56 | an unreadable request line gets no reply, no push and no removal |
| Pipeline.ServeDisabled | courier-apns.go:60-64 | a missing or empty `.push` directory gets `Push <dir> disabled` and a newline, with nothing pushed or removed |
| Pipeline.ServeNothingDecoded | courier-apns.go:60-110 | a non-empty directory none of whose records decodes is answered `Push <dir> to` and a newline, not as disabled, and nothing changes |
| Pipeline.ServeCompleted | courier-apns.go:47-111 | when every decodable record is delivered, the reply is the header, one fragment per record in listing order, and the newline, and those fragments parse back into the reports. One notification went to each record. The request ends normally. Other mailboxes are untouched, and the directory keeps exactly the entries the pruning rule did not remove |
| Pipeline.ServeAborted | courier-apns.go:89-95 | when some decodable record is not delivered, the request dies and the reply never gets its final newline |
| Host.Conn.constructor | courier-apns.go:47 | a fresh connection carries its request line, has nothing written and is open |
| Host.Conn.ReadLine | courier-apns.go:51-52 | reading the request yields the connection's line, or nothing when it cannot be read |
| Host.Conn.Write | courier-apns.go:62 | writing appends to what was written and leaves the connection's open state alone |
| Host.Conn.Close | courier-apns.go:48 | closing writes nothing and marks the connection closed |
| Host.Client.constructor | courier-apns.go:47 | a fresh client has sent nothing |
| Host.Client.Push | courier-apns.go:89 | pushing logs the notification as sent and yields the service's answer to it |
| Host.FileSystem.constructor | courier-apns.go:60 | the directories start as given, with distinct names in each |
| Host.FileSystem.ReadDir | courier-apns.go:60 | listing `<dir>/.push` yields its entries, or fails when the directory cannot be listed |
| Host.FileSystem.ReadFile | courier-apns.go:69 | reading a file yields its content when the directory lists it and it is readable, and fails otherwise |
| Host.FileSystem.Remove | courier-apns.go:101 | unlinking succeeds exactly when the directory lists the name and the file system allows it. On success only that name disappears from only that directory, and on failure nothing changes |
| Host.RemoveFromListing | courier-apns.go:101 | unlinking one more file from a pruned listing gives the listing pruned of both |
| Host.HandleEntry | courier-apns.go:69-108 | one pass of the loop body leaves the connection, client and directory as one `Step` of the specification says |
| Host.DeliverEntry | courier-apns.go:82-107 | pushing to a decoded record, then reporting or dying, leaves the state as `Deliver` says |
| Host.ReportAndPruneEntry | courier-apns.go:95-107 | after a response the fragment is written and the file is unlinked when the pruning rule says so, as `ReportAndPrune` says |
| Host.PruneEntry | courier-apns.go:101-106 | the directory loses the entry's name exactly when the file system allows it, and the outcome is otherwise ignored |
| Host.Advance | courier-apns.go:68-108 | one pass of the loop body takes the state the loop over the entries before `es[i]` left to the state the loop over the entries up to it leaves, and when the request dies there the whole loop ends in that state |
| Host.HandleEntries | courier-apns.go:68-109 | the loop leaves the connection, client and directory as `Run` over the listing says, and stops at the first entry that ends the request |
| Host.HandleListing | courier-apns.go:66-110 | after a non-empty listing, the reply is the header, the loop's fragments and the newline if the loop ended normally. The connection is closed unless `log.Fatal` ended the process |
| Host.Finish | courier-apns.go:48 | the newline is written only after a normal loop, and the deferred close runs unless `log.Fatal` ended the process |
| Host.HandleRequest | courier-apns.go:47-111 | serving a connection writes exactly `Serve`'s reply and sends exactly its notifications. It leaves the directories as `Serve` gives them, and closes the connection unless `log.Fatal` ended the process |
| Scenarios.ServeOneRecord | courier-apns.go:47-111 | a mailbox with one decodable subscription that gets a response is answered with its one fragment and a newline. It loses that subscription exactly when the pruning rule chooses it and unlinking succeeds |
| Scenarios.Fragment200 | courier-apns.go:95 | the fragment for token prefix `deadbeef` and status 200 is ` deadbeef (200)` |
| Scenarios.Fragment410 | courier-apns.go:95 | the fragment for token prefix `deadbeef` and status 410 is ` deadbeef (410)` |
| Scenarios.DeliverThenExpire | courier-apns.go:99-101 | for a file holding the JSON record `{"aps-account-id":"acct1","aps-device-token":"deadbeef01020304","mailboxes":["INBOX"]}`, which the decoder reads as that device, a 200 keeps the subscription. A later 410 stamped after the file's modification time removes it, and the next request finds the mailbox disabled with nothing pushed |

## Left out

- `main`, the socket listener, command-line flags, syslog set-up and `ParsCertificate` (certificate loading and topic extraction) are not modelled. The topic is a parameter.
- Concurrent handling (`go HandleRequest(...)` with `--concurrent`) is not modelled. Each request runs alone against the directories.
- TLS, HTTP/2 and the apns2 client are replaced by a deterministic oracle `respond`: the same notification always gets the same outcome.
- JSON decoding (`json.Unmarshal` into `Device`) is the oracle `parse`. A record that does not decode is `None`. Unknown fields and partial decodes follow whatever the oracle says.
- The payload is built by plain concatenation. Go's `%s` also copies the account id verbatim, so an id holding a quote yields invalid JSON in both. `AccountIdOf` recovers the id by position between the fixed head and tail, not by JSON parsing.
- The clock (`time.Now()`) is read once per notification in the source. The model takes it as the parameter `now`, the same for every entry of a request.
- The response timestamp is an integer in the same unit as the file modification time. apns2's zero timestamp (no header) is just another integer.
- `bufio.Reader.ReadLine`'s 4096-byte buffer and its `isPrefix` flag are not modelled. The request line is given whole or as unreadable.
- `path.Join` path cleaning is not modelled. Directories are keyed by the request line as written.
- `ioutil.ReadDir` sorts entries by name. The model takes the listing order as given and does not model the sort.
- Logging (`log.Print`, `log.Printf`) is not modelled, apart from `log.Fatal`'s exit without deferred calls.
- Errors from writes to the connection are ignored by the source and are not modelled.
- Go strings are bytes. The model uses characters, so the token prefix `[0:8]` is the first eight characters.
- The process exit caused by `log.Fatal` and a panic's unwinding are modelled only as the `Exit` value and its effect on the connection. What happens to other goroutines is not modelled.
