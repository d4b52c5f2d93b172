# DoozerData: a local mirror of a doozerd namespace, in Dafny

`DoozerData` (pydoozer, `examples/doozerdata.py`) behaves like a dict whose values live in
doozerd, a Paxos-replicated key-value store. The object keeps three things:

- `revisions`: key -> the last revision it has seen for that key.
- `watch_event`: a one-bit gate. Writes close it so that the watch loop does not take the
  write's own echo for somebody else's change.
- a user callback, fired for changes made by other clients.

This project models that object and proves what its decisions do to that state.

- `paths.dfy`, module `Paths`: the key/path mapping. `KeyPath` is `key_path`, the last
  `/` segment. `Folder` is `folder`, which prefixes the namespace and replaces `_` by `-`.
  `Dashed` is that replacement. The lemmas connect the two directions: `key_path(folder(k))`
  is the dashed key, so it is `k` exactly when `k` has neither `_` nor `/`. The mapping is
  not injective.
- `doozer.dfy`, module `Doozer`: the client boundary. It has the response record (path,
  revision, flags, value), the client's exceptions, a `Reply` (value or exception) for one
  call, and the `Request`s the mirror sends. The flag constants are 4 (set) and 8 (delete).
- `classifier.dfy`, module `Classifier`: the change classifier as pure functions over a
  `LocalView`, which holds the revision table and the log of callback invocations.
  `Absorb` is `_handle_change` / `_old_or_delete`. `Loaded` is the fold that
  `load_initial_data` performs. Lemmas cover redelivery and what a reload keeps and records.
- `mirror.dfy`, module `Mirror`: class `DoozerData`, with the revision map, the gate
  (`watchOpen`), the callback log (`notices`) and the log of client calls (`sent`) as
  fields. Its methods follow the source statement by statement. Each method's
  postcondition gives the new state in terms of the old one and the client's replies, and
  ties the classifier and the load loop to `Absorb` and `Loaded`. The module ends with the
  members behind the finding below.

The doozerd client is not part of the model. Each client call's reply (`Ok(value)` or
`Fail(RevMismatch | TooLate | BadPath | NoEntity | Timeout | ...)`) is a parameter of the
method that makes the call. Each call is appended to `sent` with the arguments the source
passes: path, value, and expected revision.

## Behaviour of the code worth knowing (the model follows the code)

- **A tracked key with a different revision and flag 8.** The key is removed and the
  callback fires with `destroy=True`, as the comment at lines 142-144 says: a key still
  tracked was not deleted by this mirror.
- **An untracked key with flag 8** (typically the echo of the mirror's own delete). The
  comment at lines 124-125 says only such deletes reach the end of `_handle_change`, and
  implies they are left alone. The code has already recorded the change's revision
  (line 117), so the key is tracked again. For a key holding `_` or `/` the mirror's own
  delete is not untracked, though: after `set("a_b")` and its echo, the table also tracks
  `a-b`, which `delete` does not forget, so the delete's echo fires `Destroyed` (see
  Findings).
- **Other flags.** A change with a flag that is neither 4 nor 8 is recorded and fires no
  callback.
- **Key mapping.** `folder` replaces `_` by `-` (line 208), so `a_b` and `a-b` get the same
  path (`Paths.FolderNotInjective`). `set`/`get`/`delete` keep the caller's key in the
  table, while the classifier and the load keep `key_path` of the backend path. The two
  entries then drift apart. Suppose `set("a_b")` at revision r has been echoed, and a peer
  then writes `a-b` at r2. The watch records r2 under `a-b` only. Every later
  `set("a_b")` still expects r and meets `RevMismatch`. Its replay of the stored value
  (revision r2) is taken for an echo of `a-b` and ignored, so `a_b` is never brought up to
  date. Each attempt also leaves the gate cleared.
- **The gate after a write conflict.** `_set` clears the gate before the write and sets it
  again only on success (lines 189-192). After a `RevMismatch` it stays cleared, and the
  watch loop handles no change until a later write succeeds
  (`Mirror.ConflictStallsWatch`).
- **`TooLate` in `get`.** The code returns the unconditional read's whole response
  without touching the table. After `RevMismatch`, `get` returns only the value, not the
  response.
- **Resynchronisation.** A reload does not drop keys that vanished while the mirror was
  disconnected (`Classifier.LoadKeepsUntouchedKey`). The table is therefore not that of a
  freshly built mirror.

## Model

| member | source | states |
|---|---|---|
| Paths.Dashed | examples/doozerdata.py:207-208 | the replacement keeps the length and leaves no `_` in the result |
| Paths.DashedAt | examples/doozerdata.py:208 | each `_` becomes `-`; every other character stays where it was |
| Paths.KeyPath | examples/doozerdata.py:203-204 | the last segment holds no `/` and is no longer than the path |
| Paths.KeyPathIsLastSegment | examples/doozerdata.py:203-204 | the last segment is a suffix of the path, preceded by `/` unless it is the whole path |
| Paths.Folder | examples/doozerdata.py:206-209 | the path is the namespace, a `/`, then the key with no `_` left, and has the matching length |
| Paths.KeyPathWithin | examples/doozerdata.py:203-209 | after a `/`, `key_path` yields a suffix of what follows that `/`, whatever comes before it |
| Paths.KeyPathAfterSlash | examples/doozerdata.py:203-204 | a segment without `/` placed after a `/` is exactly what `key_path` returns |
| Paths.KeyPathOfFolder | examples/doozerdata.py:203-209 | for a key without `/`, `key_path(folder(k))` is the dashed key, and equals `k` if and only if `k` has no `_` |
| Paths.KeyPathOfFolderIsKey | examples/doozerdata.py:203-209 | for any key, `key_path(folder(k))` equals `k` if and only if `k` holds neither `_` nor `/` |
| Paths.FolderNotInjective | examples/doozerdata.py:206-209 | the distinct keys `a_b` and `a-b` get the same backend path |
| Classifier.Absorb | examples/doozerdata.py:107-150 | a change whose key is tracked at its revision changes nothing, and only such a change does; only the change's own key is touched; a foreign delete (tracked, other revision, flag 8) drops the key and fires `Destroyed(value, key)` once; in every other case the key ends at the change's revision, whatever the flags, and the callback fires with the value only for flag 4 |
| Classifier.RedeliveryIgnored | examples/doozerdata.py:113-122 | a change handled twice has the effect of handling it once, unless it was a foreign delete |
| Classifier.RedeliveredDeleteRetracks | examples/doozerdata.py:116-117 | a foreign delete handled twice puts the key back at the delete's revision and fires no second callback |
| Classifier.Loaded | examples/doozerdata.py:51-55 | the load only appends to the callback log, at most one invocation per walked file |
| Classifier.LoadKeepsUntouchedKey | examples/doozerdata.py:51-55 | a key named by no walked file and no fetched change keeps its entry (present or absent, same revision) across a reload |
| Classifier.LoadTracksLastFile | examples/doozerdata.py:51-55 | after the load a walked file's key is tracked at that file's revision, unless a later file or fetched change names the same key |
| Mirror.DoozerData.constructor | examples/doozerdata.py:33-45 | a new mirror starts from an empty table with the gate set, walks the namespace and loads it, then asks for the current revision and anchors the watch loop on it (`startRev`) |
| Mirror.DoozerData.LoadInitialData | examples/doozerdata.py:47-55 | walks `path/**`, fetches each file, and leaves table and callback log as `Loaded` of the old ones; gate untouched |
| Mirror.DoozerData.WatchStep | examples/doozerdata.py:77-95 | waits from `rev`; with the gate set, the change is handled as `Absorb` and the loop goes on at `change.rev + 1`; with the gate cleared nothing is handled; a timeout re-anchors on the current revision and reloads; any other exception from the wait handles nothing and ends the loop, and only it does |
| Mirror.DoozerData.Resync | examples/doozerdata.py:87-91 | on a watch timeout, asks for the current revision, continues from it, and reloads as `Loaded` |
| Mirror.DoozerData.HandleChange | examples/doozerdata.py:107-122 | the table and callback log after the call are `Absorb` of the ones before; the gate and the client are untouched |
| Mirror.DoozerData.OldOrDelete | examples/doozerdata.py:127-150 | returns true if and only if the key is tracked and the change has its revision or flag 8; only in the foreign-delete case does it remove the key and fire `Destroyed` |
| Mirror.DoozerData.Get | examples/doozerdata.py:152-173 | reads at the recorded revision or 0; on success returns the response untouched; on `RevMismatch` re-reads, records the latest revision and returns only its value; on `TooLate` returns the unconditional response and records nothing; other errors propagate |
| Mirror.DoozerData.Set | examples/doozerdata.py:175-185 | a non-`str` value raises `TypeError` with no client call and no state change; otherwise writes expecting the recorded revision or 0, with the effects of `_set` |
| Mirror.DoozerData.SetAt | examples/doozerdata.py:187-201 | the gate ends set exactly when the write succeeded; on success the key is recorded at the returned revision (with `corrected`, also under `WrittenKey`); on `RevMismatch` the stored value is re-read and handled as `Absorb`; other errors propagate with the table unchanged |
| Mirror.DoozerData.Delete | examples/doozerdata.py:211-227 | deletes expecting the recorded revision or 0; a non-zero recorded revision is forgotten first, so the key is then absent (with `corrected`, `WrittenKey` too); on `RevMismatch` deletes again expecting the current global revision; `BadPath` is swallowed |
| Mirror.OwnEchoSuppressedOnlyForPlainKeys | examples/doozerdata.py:187-193 | after a write records `key` at `rev`, its echo is ignored when `key` has neither `_` nor `/`; with either (and the echo's key untracked) the echo fires the callback |
| Mirror.UnderscoreEchoFires | examples/doozerdata.py:175-193 | a fresh mirror that sets `a_b` and then receives the echo of that write fires the callback with its own value |
| Mirror.SlashEchoFires | examples/doozerdata.py:175-193 | a fresh mirror that sets `x/y` and then receives the echo of that write fires the callback with its own value |
| Mirror.WrittenKey | examples/doozerdata.py:203-209 | the key of a write's backend path is the dashed key (for keys without `/`) and never holds `_` |
| Mirror.WrittenEchoIgnored | examples/doozerdata.py:62-64 | with the corrected `_set`, a fresh mirror that writes any key handles the echo of its write and fires no callback, and its next `set` of the key still expects the write's revision |
| Mirror.UnderscoreDeleteEchoFires | examples/doozerdata.py:211-219 | a fresh mirror that sets `a_b`, hears the echo, deletes `a_b` and hears that echo fires `Updated(value)` and then `Destroyed("", "a-b")` |
| Mirror.WrittenDeleteEchoIgnored | examples/doozerdata.py:131-133 | with the corrected `_set` and `delete`, the same sequence for any key and any positive revision fires no callback |
| Mirror.ConflictStallsWatch | examples/doozerdata.py:187-201 | after a write that met `RevMismatch`, the next pass of the watch loop handles no delivered change |

## Left out

- The gevent concurrency is not modelled: the spawned `watchjob`, blocking on `watch_event.wait()`, and cooperative scheduling. The gate is a boolean field, and `WatchStep` is one pass of the loop.
- Mirror.DoozerData.WatchStep: when the gate is cleared, the source keeps the delivered change until the gate opens. The model returns at once with `next == rev`, so the next pass asks for that change again.
- Mirror.DoozerData.Resync: `get_rev` retries forever with a 5-second sleep on `Timeout`. The model takes its eventual result as the `marker` parameter and logs a single revision request. An exception other than `Timeout` from `rev()` or from the reload would end the loop; the model does not represent it.
- Mirror.DoozerData.constructor: the same holds for the `get_rev` call of `watch`: its retries become the single `marker`, and an exception other than `Timeout` from `rev()`, which would make `__init__` raise, is not represented. The spawning of `watchjob` is left to `WatchStep`.
- The doozerd client (`walk`, `get`, `set`, `delete`, `rev`, `wait`, `getdir`) is a network client outside this model. Its replies are method parameters.
- Mirror.DoozerData.LoadInitialData: a client exception raised during the walk or a fetch would end the load early. The model takes the walk as a finished sequence of (file, fetched response) pairs.
- `items` and `delete_all` are not modelled. `items` is a generator: it lists the namespace with `getdir` (an empty listing on `NoEntity`) and yields each entry's name, revision and value from a `get`. `delete_all` deletes every item `items` yields at that item's revision. On `RevMismatch` it falls back to an unconditional delete. On `TooLate` it asks `rev()` for the current revision and deletes at that one. Neither touches the revision table or the gate.
- `doozer_key` is declared without `self`, so it cannot be called as a method, and nothing calls it. `Folder` covers the mapping.
- A missing callback (`callback=None`) is not modelled: the callback log assumes a callable. With `None`, the source raises when a change would fire it.
- Values are `string`. Python 2's byte strings and unicode are not told apart beyond the `str` check in `set`.
- The `print` diagnostics and the demo driver (`print_change`, `change_value`, `test_doozerdata`) are manual I/O exercise code.

## Findings

| source | as written | input that shows it | evidently intended | confidence | as-written member | corrected member |
|---|---|---|---|---|---|---|
| examples/doozerdata.py:193 | `_set` records the new revision under the caller's key. The watch classifies the write's echo under `key_path(folder(key))`, where `_` has become `-`. | `set("a_b", v)` succeeds at revision r. The watch then delivers the echo (path `<root>/a-b`, revision r, flag 4). | The mirror's own write is not reported to its callback (docstring of `watch`, lines 62-64). | high; not executed | Mirror.UnderscoreEchoFires | Mirror.WrittenEchoIgnored |
| examples/doozerdata.py:193 | As above, for a key holding `/`: the echo is classified under the part after the last `/`. | `set("x/y", v)` succeeds at revision r. The watch then delivers the echo (path `<root>/x/y`, revision r, flag 4), whose key is `y`. | The mirror's own write is not reported to its callback (lines 62-64). | high; not executed | Mirror.SlashEchoFires | Mirror.WrittenEchoIgnored |
| examples/doozerdata.py:218 | `delete` forgets only the caller's key. The echo of the earlier write has made the table track `key_path(folder(key))` as well, and that entry survives. | `set("a_b", v)` at revision r and its echo, then `delete("a_b")` at revision r+1 and its echo (path `<root>/a-b`, flag 8). | The mirror's own delete does not fire the callback (docstring of `_old_or_delete`, lines 131-133). | high; not executed | Mirror.UnderscoreDeleteEchoFires | Mirror.WrittenDeleteEchoIgnored |

The corrected key is `Mirror.WrittenKey`, the key of the write's backend path. With
`corrected` set, `SetAt` records a successful write under both the caller's key and
`WrittenKey`, and `Delete` forgets both. Then the echo of every write and of every delete is
ignored (`Mirror.WrittenEchoIgnored`, `Mirror.WrittenDeleteEchoIgnored`), and later writes
stay conditional on the recorded revision. `Set` passes `corrected == false`, so that the
class's contracts describe the code as written.
