# fzvoid, modelled in Dafny

`fzvoid` is a command-line tool that voids purchases on the Fat Zebra
payment gateway. Given a merchant username, an API token and either one
purchase reference or a file of references, it does two things per reference:

- It looks the purchase up with `GET …/v1.0/purchases/<reference>`.
- If the gateway reports the lookup successful, it voids the internal id it
  got back with `POST …/v1.0/purchases/void?id=<id>`.

Both requests carry HTTP Basic credentials. Merchant ids `SC-scnet` and
`TEST` go to the sandbox host; every other id goes to production.

This project models `src/main.rs` as written and proves properties of that
model. It has one module per concern:

| module | models |
|---|---|
| `Wrappers` | `Option` |
| `Utf8` | the bytes of a Rust `String` (RFC 3629), with a decoder proved to invert them |
| `Base64` | `base64::encode`: the standard alphabet with padding (section 4 of RFC 4648), with a decoder proved to invert it |
| `Endpoints` | `Url`, its defaults, and the sandbox/production choice |
| `Auth` | the `Authorization` value: `"Basic "` followed by the Base64 of `username:token` (RFC 7617), with a parser proved to recover the pair |
| `Envelope` | the JSON document and the tolerant `FetchResponses` decoding (`#[serde(default)]` and `deserialize_optional_field`), with an encoder proved to round-trip through it |
| `Gateway` | `fetch_purchase`, `void_transaction` and `return_error` |
| `Workflow` | `fetch_n_void` |
| `Driver` | `main`: parameter selection, the empty-file error and the batch loop |
| `Intended` | corrected definitions for the three findings below |

The network is replaced by inputs. Each call receives the gateway's `Reply`:

- the send fails (connection, TLS, or the 10-second timeout firing before the
  response headers arrive);
- reading the body fails (including the 10-second timeout firing while the
  body is read);
- a body arrives, either unparseable or a JSON document.

A run is described by a `Transcript`: the requests issued, the lines printed
to standard output, and how the run ended. An `unwrap` that fails is
`Panicked`, which ends the whole process with exit status 101. The batch file
is an input too, given as the lines `read_file` returns.

Where the code is a sequence of steps, the model is a method proved against
a specification function: `Workflow.FetchNVoid` against `Workflow.Run`, and
`Driver.Execute` against `Driver.Invocation`. The batch loop in `Execute`
keeps the invariant that the first k lines have produced exactly the transcript
`Driver.Sweep` gives for their k calls.

## Where the code and its specification differ

The model follows the code. These are the differences:

- **No flags.** The specification says a run with neither `--reference` nor
  `--filename` makes no request. The code still calls `fetch_n_void` with
  every parameter empty (`Driver.NoFlags`; Finding 3).
- **Batch file lines.** The specification says lines are stripped and empty
  lines skipped. The code uses every line as read (`Intended.BlankLineAsWritten`;
  Finding 2).
- **Successful void.** `fetch_n_void` prints "Voiding failed" after a
  successful void, and panics when the void envelope has no errors
  (`Workflow.VoidSuccess`; Finding 1).
- **Unsuccessful lookup without errors.** The specification asks for a
  placeholder message. The code panics (`Workflow.LookupRejected`).
- **Silent errors.** The specification says transport and decoding errors
  are reported on the console. In batch mode the code discards them, so
  nothing about them reaches the console. In single mode nothing is printed
  to standard output either: the error is returned from `main`, and the Rust
  runtime writes it (`Error: "…"`) to standard error.
- **Exit status.** The specification says per-reference failures exit 0. In
  single mode the code exits 1 (`Driver.ExitCode`). In batch mode it exits 0,
  or 101 on a panic (`Driver.BatchExitCode`).
- **Missing or empty id.** The specification says `successful = true` with a
  missing or empty id is an error and never a void. The code panics on a
  missing response (`Workflow.LookupWithoutResponse`). It voids an empty id
  against the bare void path (`Workflow.EmptyIdIsVoided`).
- **Output lines.** The specification says there is one output line per
  reference. The code prints zero, one or two (`Driver.BatchBounds`).
- **Unreadable body.** For the lookup this panics (`.unwrap()`). For the void
  it is a transport error (`?`).
- **Lookup timeout while reading the body.** The specification expects a
  timeout to be a transport error that leaves the exit status 0. When the
  lookup's timeout fires inside `.text()` the `.unwrap()` panics instead:
  exit 101, and in batch mode the rest of the file is not processed
  (`Gateway.FetchPurchase` with `ReadError`, `Driver.PanicEndsSweep`).

## Model

| member | source | states |
|---|---|---|
| `Wrappers.Option.GetOr` | src/main.rs:255-259 | the value when present, the default otherwise |
| `Utf8.EncodeChar` | src/main.rs:105-108 | a character becomes one to four bytes: one byte exactly for ASCII, equal to the code; every later byte is a continuation byte |
| `Utf8.Encode` | src/main.rs:105-108 | a string becomes between one and four bytes per character |
| `Utf8.DecodeChar` | src/main.rs:105-108 | a decoded prefix is between one byte and the whole input |
| `Utf8.DecodeEncodeChar` | src/main.rs:105-108 | decoding a character's encoding, whatever follows it, gives the character and the number of bytes it used |
| `Utf8.EncodeAppend` | src/main.rs:105-108 | encoding a concatenation concatenates the encodings, as `push_str` and `push` build `auth_str` |
| `Utf8.DecodeEncode` | src/main.rs:105-108 | decoding the encoding of any string gives the string back |
| `Utf8.EncodeInjective` | src/main.rs:105-108 | two strings with the same bytes are equal |
| `Base64.SextetChar` | src/main.rs:110 | no digit of the alphabet is the pad character `=` |
| `Base64.SextetCharOf` | src/main.rs:110 | each digit maps back to its 6-bit value |
| `Base64.Quantum` | src/main.rs:110 | three bytes become four characters of the alphabet |
| `Base64.Encode` | src/main.rs:110 | the output has 4·⌈n/3⌉ characters, all alphabet digits or `=` |
| `Base64.DecodeFull` | src/main.rs:110 | a full quantum decodes to three bytes |
| `Base64.DecodeFinal` | src/main.rs:110 | a final, possibly padded quantum decodes to one to three bytes |
| `Base64.QuantumDecodes` | src/main.rs:110 | a quantum of three bytes decodes to those bytes |
| `Base64.OneOctetDecodes` | src/main.rs:110 | the `xx==` form of one byte decodes to that byte |
| `Base64.TwoOctetsDecode` | src/main.rs:110 | the `xxx=` form of two bytes decodes to those bytes |
| `Base64.DecodeEncode` | src/main.rs:110 | decoding the encoding of any byte string gives it back |
| `Base64.EncodeInjective` | src/main.rs:110 | two byte strings with the same encoding are equal |
| `Endpoints.Url.GetFetchUrl` | src/main.rs:197-203 | the sandbox lookup base for exactly `SC-scnet` and `TEST`, the production one otherwise |
| `Endpoints.Url.GetVoidUrl` | src/main.rs:205-211 | the sandbox void base for exactly `SC-scnet` and `TEST`, the production one otherwise |
| `Endpoints.DefaultUrl` | src/main.rs:178-188 | the four base URLs, letter for letter |
| `Endpoints.HostsExclusive` | src/main.rs:181-185 | the two hosts differ at the character after `https://gateway.pmnts`, so no URL is on both |
| `Endpoints.FetchBase` | src/main.rs:114 | the lookup base starts with the sandbox host if and only if the username is a sandbox id, and with the production host if and only if it is not; it is that host followed by `v1.0/purchases/` |
| `Endpoints.VoidBase` | src/main.rs:149 | the same for the void base, which ends in `v1.0/purchases/void?id=` |
| `Endpoints.FetchUrl` | src/main.rs:114 | the lookup URL is the base followed by the reference, verbatim |
| `Endpoints.VoidUrl` | src/main.rs:149 | the void URL is the base followed by the id, verbatim |
| `Endpoints.UrlsDetermineArguments` | src/main.rs:114 | for one merchant, the lookup URL determines the reference and the void URL determines the id |
| `Endpoints.SandboxMatchIsExact` | src/main.rs:198-201 | case variants, padded forms and the empty id are not sandbox ids and go to production |
| `Auth.Credentials` | src/main.rs:105-108 | `auth_str` is the username, one `:`, then the token |
| `Auth.CredentialBytes` | src/main.rs:105-110 | the bytes given to `base64::encode` are the username's UTF-8 bytes, the byte 58 for `:`, then the token's |
| `Auth.BasicAuth` | src/main.rs:105-117 | the header value starts with `Basic ` and continues with at least one Base64 character, and only those |
| `Auth.SplitAtColon` | src/main.rs:105-108 | a split at the first colon gives back the input, with no colon in the first part; there is no split exactly when the input has no colon |
| `Auth.SplitCredentials` | src/main.rs:105-108 | a username without a colon and any token are recovered from `auth_str` |
| `Auth.ParseBasicAuthRoundTrip` | src/main.rs:105-117 | parsing the header value gives back the username and token, when the username has no colon |
| `Auth.BasicAuthInjective` | src/main.rs:105-117 | equal header values mean equal `auth_str`, and equal username and token when neither username has a colon |
| `Auth.EmptyCredentials` | src/main.rs:105-117 | an empty username and token give `Basic Og==` |
| `Envelope.DefaultEnvelope` | src/main.rs:61-62 | the default envelope is unsuccessful with both slots absent |
| `Envelope.DecodeFetchResponse` | src/main.rs:73-78 | a response decodes exactly when it is an object with a string `id`, and carries that id |
| `Envelope.DecodeErrors` | src/main.rs:80-84 | the errors decode exactly when they are an array of strings, and give those strings in order |
| `Envelope.DeserializeOptionalField` | src/main.rs:86-101 | `Some(None)` is never produced; the result is `Some` exactly when the value is not null and decodes, and then holds the decoded value |
| `Envelope.Slot` | src/main.rs:65-70 | an absent field is treated like a null or ill-typed one: the slot is empty unless the field is present, not null and well-typed |
| `Envelope.DecodeEnvelope` | src/main.rs:61-71 | a document decodes exactly when it is an object whose `successful`, if present, is a boolean. `successful` holds exactly when it is present and true; the slots are as `Slot` gives them; the result never holds `Some(None)` |
| `Envelope.FromStr` | src/main.rs:125 | an unparseable body fails; a document is decoded as an envelope |
| `Envelope.StringArray` | src/main.rs:80-84 | a list of strings renders as an array of those strings |
| `Envelope.EncodeEnvelope` | src/main.rs:61-71 | a rendered envelope is an object with `successful` |
| `Envelope.DecodeEncodeEnvelope` | src/main.rs:61-71 | every envelope the decoder can produce is decoded back from its rendering |
| `Envelope.IllTypedSlotsAreAbsent` | src/main.rs:92-99 | null or ill-typed slots decode the same as absent ones |
| `Gateway.Headers` | src/main.rs:115-117 | the request carries `Accept` and `Content-Type` `application/json`, plus the Basic `Authorization` |
| `Gateway.ReturnError` | src/main.rs:233-239 | always an error, whose message is the prefix followed by the reference |
| `Gateway.FetchRequest` | src/main.rs:113-118 | a GET of the lookup URL, carrying the headers, with a 10-second timeout |
| `Gateway.VoidRequest` | src/main.rs:148-153 | a POST of the void URL, carrying the headers, with a 10-second timeout |
| `Gateway.Decoded` | src/main.rs:125 | only a received body decodes, and what it decodes to never holds `Some(None)` |
| `Gateway.FirstError` | src/main.rs:167 | present exactly when the errors are present and non-empty, and then their first entry |
| `Gateway.Debug` | src/main.rs:167 | `{:?}` puts the string between double quotes |
| `Gateway.VoidedLine` | src/main.rs:164 | the reference followed by ` - Voided` |
| `Gateway.FailureLine` | src/main.rs:167 | the reference, ` - Voiding failed - `, and the quoted error |
| `Gateway.FetchPurchase` | src/main.rs:104-133 | always issues the lookup and prints nothing. A failed send is a transport error. An unreadable body panics. An undecodable body gives `00Error voiding transaction: ` followed by the reference. Otherwise the call returns the envelope |
| `Gateway.VoidTransaction` | src/main.rs:135-175 | issues the void. It returns the envelope, printing the Voided line, exactly when the gateway says `successful`. Otherwise: a send or read failure is a transport error printing nothing; an undecodable body gives `02Error…`; a rejection prints the failure line and gives `01Error…`, or panics when there is no error to show |
| `Workflow.ReferenceOf` | src/main.rs:255-259 | the reference given, else the one in the parameters |
| `Workflow.FetchedId` | src/main.rs:268-270 | there is an id exactly when the lookup decodes, says `successful` and carries a response; the id is that response's |
| `Workflow.VoidStep` | src/main.rs:271-276 | after the void: `Ok(())` exactly when the void returned an envelope that has a first error; a void error gives `Error voiding transaction: ` followed by the reference |
| `Workflow.Run` | src/main.rs:253-285 | the lookup is always issued first; a void follows exactly when the lookup yielded an id, and is for that id; at most two lines are printed |
| `Workflow.VoidAndReport` | src/main.rs:269-276 | the method performs the void step as specified and issues the lookup, then the void of the id |
| `Workflow.FetchNVoid` | src/main.rs:253-285 | the method produces exactly the transcript `Run` specifies |
| `Workflow.LookupFailure` | src/main.rs:281-283 | a lookup that does not decode issues no void and prints nothing. It panics on an unreadable body; otherwise it returns `Error fetching transaction: ` followed by the reference |
| `Workflow.LookupRejected` | src/main.rs:277-280 | an unsuccessful lookup issues no void. It prints the failure line and returns `Could not fetch transaction: ` followed by the reference, or panics when there is no error |
| `Workflow.LookupWithoutResponse` | src/main.rs:270 | a successful lookup without a response panics before any void |
| `Workflow.VoidFailure` | src/main.rs:271-276 | a void that is not accepted gives `Error voiding transaction: ` followed by the reference, or panics exactly when its rejection has no error; a rejection with a first error prints exactly its failure line (inside `void_transaction`, src/main.rs:167), and a send, read or decode failure prints nothing |
| `Workflow.VoidSuccess` | src/main.rs:271-273 | an accepted void prints the Voided line and then a "Voiding failed" line, returning `Ok(())`, or panics when the envelope has no error |
| `Workflow.OkOnlyAfterAcceptedVoid` | src/main.rs:266-283 | `Ok(())` only after a void the gateway accepted |
| `Workflow.EmptyIdIsVoided` | src/main.rs:269-270 | an empty id is still voided, against the bare void path |
| `Driver.SelectParams` | src/main.rs:296-316 | a file name wins and clears the reference; a lone reference is kept; with neither flag every parameter is empty |
| `Driver.Steps` | src/main.rs:326-327 | one `fetch_n_void` per line |
| `Driver.Sweep` | src/main.rs:326-329 | the batch ends with `Ok(())` or a panic, never an error |
| `Driver.SweepStartsWithFirst` | src/main.rs:326-327 | the loop's requests begin with those of its first call |
| `Driver.Batch` | src/main.rs:326-329 | batch mode as a specification: it never returns an error, and its first request is the lookup of the file's first line; `Driver.BatchLookups`, `Driver.BatchBounds` and `Driver.UnreachableGateway` state the rest |
| `Driver.Invocation` | src/main.rs:288-331 | `main` as a specification: no request exactly when a non-empty file name reads as no lines, and an error only in single mode or for that file; `Driver.Execute` is proved equal to it, and `Driver.EmptyFile`, `Driver.FilenameWins`, `Driver.SingleReference`, `Driver.BatchExitCode` and `Driver.NoFlags` state its cases |
| `Driver.ExitCode` | src/main.rs:289 | the exit status is 0 exactly for `Ok` and 101 exactly for a panic |
| `Driver.PanicEndsSweep` | src/main.rs:326-328 | after a panic no further line is processed |
| `Driver.Execute` | src/main.rs:288-331 | the method produces exactly the transcript `Invocation` specifies |
| `Driver.LookupsAppend` | src/main.rs:326-328 | the lookups of two runs in sequence are the first run's followed by the second's |
| `Driver.RunLookups` | src/main.rs:261 | one `fetch_n_void` issues exactly one lookup, for its reference |
| `Driver.SweepLookups` | src/main.rs:326-328 | for calls that each issue one lookup, the lookups come out in call order, all of them unless a panic intervened |
| `Driver.BatchLookups` | src/main.rs:326-328 | the lookups of a batch are those of the file's lines, in file order, all of them unless a panic ended the run |
| `Driver.SweepBounds` | src/main.rs:326-328 | no more than twice as many requests and printed lines as calls, and at least one request per call without a panic |
| `Driver.BatchBounds` | src/main.rs:326-328 | a batch issues at most two requests and prints at most two lines per line, and at least one request per line unless it panicked |
| `Driver.SweepOfErrors` | src/main.rs:326-329 | calls that all return after their lookup give `Ok(())` and those lookups |
| `Driver.UnreachableGateway` | src/main.rs:326-329 | with an unreachable gateway the batch still returns `Ok(())`, having looked every line up and printed nothing |
| `Driver.EmptyFile` | src/main.rs:322-325 | no lines: the file error with no request, exit status 1 |
| `Driver.BatchExitCode` | src/main.rs:326-329 | a batch exits with 0 or 101, never 1 |
| `Driver.FilenameWins` | src/main.rs:309-314 | with a file name the reference flag changes nothing |
| `Driver.SingleReference` | src/main.rs:303-319 | a reference without a file name gives one `fetch_n_void` of that reference, whose lookup is the first request |
| `Driver.EmptyFilenameIsSingle` | src/main.rs:318-319 | an empty file name selects single mode with the empty reference: the first lookup is for the bare lookup base |
| `Driver.NoFlags` | src/main.rs:315-319 | with neither flag a lookup is still issued, to `https://gateway.pmnts.io/v1.0/purchases/` with `Basic Og==` |
| `Intended.RunIntended` | src/main.rs:271-273 | the corrected `fetch_n_void` issues the same requests as the code |
| `Intended.IntendedOkIff` | src/main.rs:266-283 | corrected: `Ok(())` exactly when the lookup yielded an id and the void was accepted |
| `Intended.IntendedAcceptedVoid` | src/main.rs:271-273 | corrected: an accepted void prints only the Voided line and returns `Ok(())` |
| `Intended.IntendedAgreesOtherwise` | src/main.rs:266-283 | the correction changes nothing unless the void is accepted |
| `Intended.AcceptedVoidAsWritten` | src/main.rs:272 | as written, an accepted void whose envelope has no errors panics, where the corrected call returns `Ok(())` |
| `Intended.AcceptedVoidScenarioAsWritten` | src/main.rs:272 | as written, lookup `{"successful":true,"response":{"id":"txn-9"}}` then void `{"successful":true}` prints `abc-1 - Voided` and panics |
| `Intended.LeadingBlanks` | src/main.rs:245-247 | the length of the blank prefix: blanks before it, a non-blank at it |
| `Intended.TrailingBlanks` | src/main.rs:245-247 | the length of the blank suffix: blanks after it, a non-blank before it |
| `Intended.TrimStart` | src/main.rs:245-247 | drops leading blanks only: the result is a suffix that does not start with a blank |
| `Intended.TrimEnd` | src/main.rs:245-247 | drops trailing blanks only: the result is a prefix that does not end with a blank |
| `Intended.Trim` | src/main.rs:245-247 | the result is the slice of the line that starts after its leading blanks, has only blanks after it, and neither starts nor ends with a blank |
| `Intended.TrimClean` | src/main.rs:245-247 | a clean line is unchanged by trimming |
| `Intended.Kept` | src/main.rs:245-247 | corrected, for one line: nothing exactly when the line is all blanks, otherwise the trimmed line |
| `Intended.References` | src/main.rs:245-247 | corrected: every reference is non-empty and clean, and there are no more references than lines |
| `Intended.ReferencesSingle` | src/main.rs:245-247 | a one-line file gives what that line contributes |
| `Intended.ReferencesAppend` | src/main.rs:245-247 | the references of a file are those of its parts, in order |
| `Intended.BlankLineDropped` | src/main.rs:245-247 | a line of blanks anywhere contributes nothing |
| `Intended.PaddedLineTrimmed` | src/main.rs:245-247 | a clean reference padded with blanks is kept without them |
| `Intended.CleanFileUnchanged` | src/main.rs:245-247 | a file of clean references is used unchanged |
| `Intended.ReferencesCons` | src/main.rs:245-247 | references are taken line by line from the front |
| `Intended.BlankLineSkipped` | src/main.rs:245-247 | corrected: two files of clean references with a line of blanks between them give the references of both, in order |
| `Intended.BlankLineAsWritten` | src/main.rs:326-327 | as written, the file r1, r2, blank, r3 gives four lookups, the third for the bare lookup path |
| `Intended.StepsIntended` | src/main.rs:326-327 | one corrected `fetch_n_void` per reference |
| `Intended.BatchIntended` | src/main.rs:326-329 | corrected batch: it never returns an error, and its first request is the lookup of the first cleaned reference |
| `Intended.StepsIntendedLookups` | src/main.rs:326-327 | the corrected calls look their references up in order |
| `Intended.BatchIntendedLookups` | src/main.rs:326-327 | corrected: the lookups are those of the cleaned references, in order, and none is for the bare lookup base |
| `Intended.InvocationIntended` | src/main.rs:288-331 | corrected `main`: no request exactly without flags, or for a named file that reads as no lines or only blank ones |
| `Intended.IntendedNoFlags` | src/main.rs:315 | corrected: with neither flag there are no requests, nothing is printed and the exit status is 0 |
| `Intended.NoFlagsAsWritten` | src/main.rs:315-319 | as written the same command line issues a request; corrected, it issues none |

## Left out

- The network, `reqwest` and the async runtime (`tokio`, `block_on`): each reply is an input. The 10-second timeout is recorded on the request. `reqwest` applies it until the body has been read, so a timeout shows up as `SendError` when it fires before the response arrives and as `ReadError` when it fires inside `.text()`.
- `read_file`'s file access: the lines are an input. A missing file and an empty file both yield no lines, as in the code. The `expect` panic on any read error while the lines are read (a line that is not valid UTF-8, or a directory given as the file, which opens and then fails to read) is not modelled.
- `clap` parsing: the parsed command line is an input. Its errors, `--help` and `--version` are not modelled.
- `serde_json`'s text parser: a body is either unparseable or a JSON value. Objects are maps, so duplicate keys and serde's array form of a struct are not modelled. Numbers are integers.
- `Envelope.DeserializeOptionalField`: assumes that after an ill-typed value inside `response` or `errors` the parser carries on with the rest of the document, so the `Err(_e) => return Ok(None)` arm yields `None` and decoding goes on. `serde_json` may instead stop mid-value and fail the whole document, and the code then returns the `00…`/`02…` error where the model decodes the slot as absent. Among the inputs where that can happen: an ill-typed element of `errors` that is not the last one (`{"successful":false,"errors":[1,"a"]}`); an object or array inside `errors`, even as its last element (`"errors":[{"message":"x"}]`); an object as `errors` itself (`"errors":{"code":"x"}`); an object or array as `id`; and an ill-typed field of `response` that is not its last one. On a lookup the code then returns `Error fetching transaction: …`, where the model may panic.
- `reqwest`'s URL parsing: a request's `url` is the string the program builds. `reqwest` parses it before sending, so a `#` starts a fragment that is not sent, `?` starts a query, spaces are percent-encoded and `..` segments are resolved; references such as `a#1` and `a#2` reach the gateway as the same request.
- Rust's `{:?}` escaping of quotes, backslashes and control characters inside the error is not modelled: `Gateway.Debug` only wraps the string in double quotes.
- What the Rust runtime writes to standard error when `main` returns an error or a thread panics: only the exit status is modelled.
- The `macros` module (`p!`): its only use in the core is commented out.
- `Auth.BasicAuth`: states the `Basic ` prefix and the Base64 alphabet of the rest, not its exact length (4·⌈n/3⌉ for n credential bytes). That length is proved for `Base64.Encode` and left out here to keep the proof small. `Auth.ParseBasicAuthRoundTrip` and `Auth.BasicAuthInjective` pin the value down.
- `Intended.Trim`: strips only the ASCII blanks (space, tab, CR, LF, VT, FF), where `str::trim` strips all Unicode white space.
- Replies are indexed by call (`Driver.Exchange`: the reply to the lookup and the reply to the void), not by request number, because the requests of a call are fixed once its replies are known.

## Findings

| source | as written | input that shows it | evidently intended | confidence | as-written member | corrected member |
|---|---|---|---|---|---|---|
| src/main.rs:272 | after a void the gateway accepted, `fetch_n_void` prints "Voiding failed" with the void envelope's first error, unwrapping `errors` | lookup `{"successful":true,"response":{"id":"txn-9"}}` and void `{"successful":true}`: prints `abc-1 - Voided`, then panics (exit 101) | print only `abc-1 - Voided` and return `Ok(())` | high (not executed) | `Intended.AcceptedVoidScenarioAsWritten` | `Intended.IntendedOkIff` |
| src/main.rs:245-247 | every line of the batch file is used as read | the file `r1\nr2\n\nr3\n`: the third lookup is for the bare `…/v1.0/purchases/` path | strip each line, skip empty ones, keep the rest in order | medium (not executed) | `Intended.BlankLineAsWritten` | `Intended.BatchIntendedLookups` |
| src/main.rs:315-319 | with neither flag `main` calls `fetch_n_void` with every parameter empty | no `--reference` and no `--filename`: GET `https://gateway.pmnts.io/v1.0/purchases/` with `Basic Og==` | make no request and exit 0 | medium (not executed) | `Intended.NoFlagsAsWritten` | `Intended.IntendedNoFlags` |
