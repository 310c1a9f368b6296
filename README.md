# connect-multiparty, modelled in Dafny

This project models the request handler that connect-multiparty's factory
returns (`index.js`). The handler is middleware that turns a
multipart/form-data request into `req.body` and `req.files`. The model has
these parts:

- **Values** (`values.dfy`): errors, the file parts the tokenizer reports,
  the values stored under a form name (a field's text or an uploaded file),
  and the trees that query-string decoding produces. JavaScript truthiness
  is written out where the handler relies on it: the empty string is the
  only falsy stored value.
- **Aggregate** (`aggregate.dfy`): the `ondata` rule. A name seen for the
  first time stores its value. A second value turns a truthy entry into a
  two-element array. Later values are appended. A falsy entry (`""`) is
  overwritten, not turned into an array. `AddAll` folds a run of arrivals,
  and the lemmas give its meaning.
- **Cleanup** (`cleanup.dfy`): which names `deleteOnFinish` selects: an
  array as given, all top-level keys of the decoded files when the option is
  loosely equal to `true`, nothing otherwise. It also gives the paths
  unlinked when the response finishes. Names without a truthy entry are
  skipped. An entry that is not a single file has an undefined path, and
  `fs.unlink` throws on it, which ends the deletions (see Findings). The
  intended deletion, `UnlinksIntended`, unlinks every uploaded file inside
  each listed entry, in arrays and nested objects too.
- **MultipartMiddleware** (`middleware.dfy`): the guards and the per-request
  state.
  - `Request` holds the request fields the handler reads and writes.
  - `Multipart` is the returned handler, with the options it closes over.
  - `Invocation` is the closure state of one call: the `data`/`files`
    dictionaries, the `done` flag, an error held until the request drains,
    the registered deletion list, and the calls made to `next`.
  - Each tokenizer event (`field`, `file`, `error`, `close`) has its own
    method. So do the end of the request stream and the response's `finish`.
  - `Run` folds a finite sequence of events. `Process` is one whole call
    of the handler on a request. For both, the first `error` or `close`
    decides the outcome, as stated by `FailedWith` and `ClosedWith`. Both
    also track when the request stream ends, which releases a held error,
    and what each response `finish` after a `close` deletes.
  - The object invariant `Valid()` says each call reaches exactly one
    outcome once it is decided, and none before. The outcome is either one
    call to `next` or one error held until the request drains. Every error
    handed on has status 400.
- **Scenarios** (`scenarios.dfy`): client code for situations the
  repository's tests describe.

The query-string decoder (`qs.parse`) is a parameter of the model, `parse`
of type `Decoder`. It is an arbitrary function from a flat dictionary to a
top-level object, or to an error that it throws. The `type-is` check is
the boolean `Request.isMultipart`. The truthiness of `req._body` is
`Request.marked`.

Two behaviours of the code worth noting:

- The code sets `status = 400` on every error it passes on, including
  tokenizer errors that already carry another status (index.js:103, 125).
- When the files fail to decode, `req.body` has already been replaced by
  the decoded fields (index.js:119-120). So a body tree can be exposed
  alongside an error.

## Model

| member | source | states |
|---|---|---|
| Values.ClientFault | index.js:103 | an error handed on keeps its message and carries status 400 |
| Values.Normalise | index.js:93-95 | a file part keeps every property; `name` is its original file name; `type` is its Content-Type header, or null when the header is missing or empty |
| Aggregate.AddValue | index.js:68-76 | a value under a name is appended to what the entry holds, and the entry becomes an array exactly when the previous entry was an array or truthy; a missing or falsy entry is replaced; every other name keeps its entry |
| Aggregate.AddAllAppend | index.js:89-97 | aggregating two runs of arrivals one after the other equals aggregating their concatenation |
| Aggregate.OtherNamesUntouched | index.js:68-76 | arrivals under other names never add, remove or change the entry under a name |
| Aggregate.RepeatsCollect | index.js:68-76 | from no entry (or a falsy one), n truthy values under a name give the value itself for n = 1 and the array of all n values in arrival order for n >= 2, whatever arrives under other names in between |
| Aggregate.EmptyFirstValueIsLost | index.js:71-74 | an empty-string first value is overwritten by the next one, so "" followed by n truthy values gives the same entry as the n values alone |
| Cleanup.ObjectKeys | index.js:121 | the keys listed for the files object are exactly its top-level keys, each once |
| Cleanup.Select | index.js:121 | an array option selects exactly that array; an option loosely equal to true selects every top-level key of the decoded files object, each once; any other option selects nothing |
| Cleanup.UnlinksAreListed | index.js:80-85 | every unlinked path is the path of a listed name's truthy entry; names without a truthy entry are skipped |
| Cleanup.UnlinksSkipAbsent | index.js:80-85 | the deletion throws exactly when a listed name has a truthy entry without a path; nothing after the first such name is unlinked; when it does not throw, every listed name with a truthy entry has its path unlinked |
| Cleanup.DeleteAllReachesEveryUpload | index.js:121-122 | with every key of the decoded files selected and every truthy entry a single file, the deletion does not throw, every such entry has its path unlinked, and every unlinked path belongs to one |
| Cleanup.RepeatedUploadsAreNotDeleted | index.js:80-85 | two files under one name form an array without a path: deleting throws at that name, and neither they nor a file listed after them is unlinked |
| Cleanup.IntendedReachesEveryFile | index.js:35 | the intended deletion ("true for all files", with each failure ignored) unlinks exactly the files found inside the listed names' truthy entries: a single file, every file of an array, and every file nested in an object |
| Cleanup.RepeatedUploadsIntended | index.js:35 | on the input where the deletion as written unlinks nothing (two files under `text`, one under `doc`), the intended deletion unlinks all three files |
| Cleanup.IntendedAgreesWithoutThrow | index.js:80-85 | where the deletion as written does not throw, it unlinks the same paths as the deletion with failures ignored |
| MultipartMiddleware.FirstTerminal | index.js:99-128 | the index of the first `error` or `close`: that event is terminal and none before it is; none when no event is terminal |
| MultipartMiddleware.Multipart.constructor | index.js:44-46 | the handler closes over the `deleteOnFinish` option and the decoder |
| MultipartMiddleware.Multipart.Handle | index.js:49-66 | a request already parsed gets `next()` and is left unchanged; otherwise `body`/`files` become their old value or `{}`; GET, HEAD and non-multipart requests then get `next()` with `_body` unset; the rest are marked and start with empty dictionaries and `done` false |
| MultipartMiddleware.Multipart.Process | index.js:48-131 | a whole call of the handler: `next` is called at most once whatever the events; an unparsed request gets `next()`; a parsed one aggregates all fields and all files in arrival order and is done exactly when an `error` or `close` event occurred; with no such event nothing is decided and `body`/`files` are their defaults; otherwise the first one decides: an error is `next(err)` with status 400, held exactly while the request has not ended and made once it has, with `body`/`files` left at their defaults, and a close decodes the fields and files that arrived before it as `OnClose` does; the request is readable until its end; after a close, each response finish unlinks the registered names' paths once more and the listener throws when `Throws` holds |
| MultipartMiddleware.Invocation.constructor | index.js:63-66 | a parsed request starts with empty field and file dictionaries, `done` false and no calls to `next`; an unparsed one has its one `next()` |
| MultipartMiddleware.Invocation.OnField | index.js:89-91 | a field is aggregated into the field dictionary, and the file dictionary and the outcome are untouched |
| MultipartMiddleware.Invocation.OnFile | index.js:93-97 | a file is normalised and aggregated into the file dictionary, and the field dictionary and the outcome are untouched |
| MultipartMiddleware.Invocation.OnError | index.js:99-111 | once done it does nothing; otherwise it is done, the error gets status 400, and it goes to `next` at once if the request is not readable; if the request is readable, it is resumed and the error is held |
| MultipartMiddleware.Invocation.OnRequestEnd | index.js:107-110 | when the request finishes, a held error is handed to `next`; the request is no longer readable |
| MultipartMiddleware.Invocation.OnClose | index.js:113-128 | once done it does nothing; otherwise it is done, `req.body` and `req.files` become the decoded dictionaries and `next()` is called; the selected names are registered for deletion; a decode failure goes to `next` with status 400 and leaves the rest as it was, except that `req.body` is already replaced when only the files fail |
| MultipartMiddleware.Invocation.OnResponseFinish | index.js:78-87 | when the response finishes, the registered names are deleted in order: the paths unlinked are those `Unlinks` gives for the current `req.files`, and the listener throws exactly when `Throws` holds; nothing else changes |
| MultipartMiddleware.Invocation.Dispatch | index.js:78-128 | each event reaches its handler: a field changes only the field dictionary, a file only the file dictionary, and `done` becomes true exactly on `error` or `close`; only `close` changes `body`, `files` and the deletion list; a first `error` fails with that error, a first `close` decodes as `OnClose` does, and a later one of either changes nothing; the end of the request makes it unreadable and hands on the held error; the response's finish only deletes, as `OnResponseFinish` does |
| MultipartMiddleware.Invocation.DispatchDone | index.js:78-128 | once done, an event still aggregates fields and files, but no `error` or `close` changes the outcome, `body`, `files` or the deletion list; the end of the request releases the held error without adding an outcome; a finish deletes the registered names |
| MultipartMiddleware.Invocation.Advance | index.js:78-128 | one more event keeps the dictionaries equal to the aggregation of all arrivals so far, the request readable exactly until its end, the deletions equal to one round per finish after a deciding `close`, and the outcome decided by the first `error` or `close` |
| MultipartMiddleware.Invocation.Run | index.js:66-128 | over any sequence of events from the start of parsing, the dictionaries are the in-order aggregation of all fields and files, `done` is set exactly when an `error` or `close` occurred, `next` is called at most once, nothing is decided before the first such event, and that event decides the outcome as `FailedWith` or `ClosedWith` state; the request is readable until its end, so an error is held exactly until then; when a `close` decided, each later finish unlinks `Unlinks` of the registered names once more, and nothing is unlinked otherwise |
| Scenarios.IgnoresGet | test/multipart.js:11-16 | a GET request with a field gets `next()`, stays unmarked and has the empty object as its body |
| Scenarios.DuplicatedMiddleware | test/multipart.js:26-39 | the second of two copies of the middleware calls `next()` and leaves the body the first one decoded |
| Scenarios.DuplicatedFields | test/multipart.js:65-72 | the fields user=Tobi, user=Loki, user=Poki aggregate to `{user: ["Tobi", "Loki", "Poki"]}` |
| Scenarios.DefaultsToEmptyObjects | test/multipart.js:153-157 | a POST that is not multipart gets `next()`, stays unmarked, and has `req.body` and `req.files` both the empty object |
| Scenarios.EmptyForm | index.js:113-123 | a multipart request whose form closes with no parts gets `next()` with `req.body` and `req.files` both the empty object, for a decoder that maps `{}` to `{}` |
| Scenarios.FailureBeforeClose | test/multipart.js:120-132 | a form error on a request with data left calls nothing while it drains, the `close` after it changes nothing, and once the request ends `next(err)` has status 400 |
| Scenarios.FailureOnDrainedRequest | index.js:99-105 | a form error on a request with no data left reaches `next` at once with status 400 |
| Scenarios.DeletesOnFinish | index.js:78-87 | with `deleteOnFinish: true` and one upload under `f`, `next()` is called and the response's finish unlinks that upload's path exactly once, without throwing |
| Scenarios.ErrorWaitsForDrain | test/multipart.js:134-151 | a form error while the request still has data calls nothing until the request has finished, and then `next(err)` with status 400 |

## Left out

- `qs.parse` (index.js:119-120), which expands bracketed names into nested
  objects, is a third-party library. It is the `parse` parameter, so any
  function that returns an object or throws. The model proves nothing about
  nesting, merging or conflicts.
- The multiparty tokenizer (boundary scanning, headers, temporary files,
  `uploadDir`, `maxFilesSize`) only supplies the events. Its options are
  not modelled beyond `deleteOnFinish`.
- `type-is` content-type matching (index.js:57) is the boolean
  `Request.isMultipart`.
- `fs.unlink`, `async.each`, `on-finished` and the response's `finish`
  event (index.js:79-85, 108) are I/O and asynchronous plumbing. An unlink
  is recorded as a requested path. Its result is ignored, as the source
  ignores it. The stream's end and the response's finish are events.
- MultipartMiddleware.Invocation.OnResponseFinish: the exception that `fs.unlink` throws on an
  undefined path is the `escaped` flag. What it does once it leaves the
  listener (an uncaught exception in the process) is not modelled.
- Cleanup.ObjectKeys: the key order JavaScript gives (integer-like keys
  first, then insertion order) is not modelled. Any duplicate-free listing
  of the keys is allowed.
- Cleanup.LooselyTrue covers an absent or null option, booleans and
  numbers. A string option (`"1" == true`), an object with a custom
  `valueOf`, and NaN are not modelled. Names in an array option are
  strings.
- Cleanup.Lookup: a `req.files` that a later handler replaced with an array,
  a string or undefined before the response finishes is treated as having
  no entries. In JavaScript, indexing those values gives other results.
- `next()` throwing inside the `try` (index.js:123-126), which would cause
  a second `next(err)`, is not modelled. `next` is assumed to return
  normally.
- Keys that JavaScript objects inherit from their prototype (a field named
  `constructor`) are not modelled. Dictionaries are Dafny maps.
- Falsy JavaScript values other than the empty string (`0`, `false`,
  `null`, `undefined`, `NaN`) as a previous `req.body` or `req.files` are
  represented as None, which `|| {}` replaces with `{}`, as the source
  does. A truthy previous `req.body` or `req.files` of another type
  (`true`, a non-zero number, a function) is not modelled; the source
  keeps it.
- The order of `next` relative to unlink requests is not recorded. They
  are kept in two separate traces.
- examples/index.js is a demo server with no logic of its own.

## Findings

| source | as written | input that shows it | evidently intended | confidence | as-written member | corrected member |
|---|---|---|---|---|---|---|
| index.js:80-85 | a truthy `req.files[name]` that is not a single file (an array from repeated names, an object from bracketed names) is passed to `fs.unlink` with an undefined path; `fs.unlink` throws before calling back, the throw escapes `async.each` and the `finish` listener, and no later name is deleted | `deleteOnFinish: true` with two files attached under `text` and one under `doc`, `text` listed first: nothing is unlinked | every uploaded file under a listed name is deleted, including each file of an array and each file nested in an object ("true for all files", index.js:35), and a failed deletion is ignored ("errors are ignored", index.js:84) | medium, not executed | Cleanup.Unlinks, Cleanup.RepeatedUploadsAreNotDeleted | Cleanup.UnlinksIntended, Cleanup.IntendedReachesEveryFile, Cleanup.RepeatedUploadsIntended |

The handler `OnResponseFinish` keeps the behaviour as written, so that the
model does what the code does. `Cleanup.IntendedAgreesWithoutThrow` shows
that the two deletions agree whenever nothing throws.
