# GPIB remote-instrument API: a verified model of its core

The repository exposes GPIB instrument operations over HTTP, behind static bearer tokens with two permission levels. The operations are discover adapters, list instruments, test a connection, read, write, query and close. Under the web glue sits a small core, which this project models in Dafny and proves properties of:

- **Token store** (`auth.py`). The `users` object of the configuration is turned into a token → user-name table by a dict comprehension. In that comprehension a later user with the same token overwrites an earlier one. `verify_token` and `get_permissions` are lookups in that table (module `Auth`).
- **Instrument registry** (`instruments.py`). `open_instruments` is a process-wide dict from address to open handle. `get_instrument` opens a handle lazily, with a 10 000 ms timeout, and reuses it afterwards. `close_all_instruments` closes every handle, even when some closes raise, and then empties the dict. `get_system_info` reports the dict's contents. The registry is the class `Instruments.Registry`. Its `handles` map goes with an `order` sequence, because Python dicts keep insertion order and both `close_all_instruments` and `get_system_info` expose it. `test_instrument_connection` opens, identifies and closes its own handle without touching the registry.
- **Discovery** (`instruments.py`). Two loops, `get_gpib_adapters` and `list_connected_instruments`, go through the enumerated resources, keep the names containing `"GPIB"`, and append one entry per kept resource. For each one they open it, ask `*IDN?` and close it. The identification reply is parsed on commas; it follows section 10.14 of IEEE 488.2 (manufacturer, model, serial number, firmware version). See module `Discovery`.
- **Request handling** (`app.py`), in module `App`:
  - `get_current_user` returns 401 for a missing or non-`Bearer ` header and 403 for an unknown token.
  - `write_gpib` returns 403 unless the permission is `"readwrite"`, and does so before the registry is touched. That 403 is re-raised as it is rather than turned into a 500.
  - `read_gpib` and `query_gpib` need authentication only.
  - `close_instrument` and `close_all_connections` handle one address or all of them; the shutdown hook calls `close_all_instruments`.

The instrument library (pyvisa) is not modelled. Every call into it becomes an input to the model: an open gives a session or raises, a query gives a reply or raises, and a close or write returns or raises (module `Visa`). The enumeration `rm.list_resources(...)` is given as a `Listing`. How each resource behaves during discovery or a connection test is a `Probe`. Python's `str` operations that the core uses are in module `Text`: `in`, `startswith`, `split` on one character, `strip()` with Python's white-space set, and `join` as the inverse of `split`.

Two behaviours of the code are easy to miss:
- `close_instrument` does not swallow close errors. A close that raises skips the `del` (app.py:128-129), so the entry stays, and the endpoint answers 500. `App.CloseInstrument` states this.
- Tokens need not be unique. When users share one, the user listed last wins (auth.py:6). `Auth.VerifyTokenLastWins` states this.

## Model

| member | source | states |
|---|---|---|
| `Text.ContainsOccurs` | instruments.py:19 | `sub in s` holds exactly when `sub` occurs at some index of `s` |
| `Text.ContainsChar` | instruments.py:33 | testing for the one-character string `','` is testing for the character |
| `Text.Split` | instruments.py:80 | `split(',')` gives one piece more than there are commas, and no piece holds a comma |
| `Text.JoinOfSplit` | instruments.py:80 | joining the pieces of a split with the separator gives back the reply |
| `Text.SplitOfJoin` | instruments.py:80 | splitting a join of comma-free pieces gives back the pieces (the other half of the round trip) |
| `Text.TrimStart` | instruments.py:31 | the result is a suffix of `s`, only white space was cut, and it does not start with white space |
| `Text.TrimEnd` | instruments.py:31 | the result is a prefix of `s`, only white space was cut, and it does not end with white space |
| `Text.Strip` | instruments.py:31 | `strip()` is no longer than its input and neither starts nor ends with white space |
| `Text.StripIsPaddedInfix` | instruments.py:31 | `strip()` is the infix of `s` left after cutting only white space from both ends |
| `Text.StripOfStripped` | instruments.py:84-87 | a string with no white space at its ends is its own strip |
| `Text.StripIdempotent` | instruments.py:79-84 | stripping a stripped reply changes nothing |
| `Auth.Items` | auth.py:6 | `users.items()` lists every configured user exactly once, and no one else, each with its configured token |
| `Auth.Invert` | auth.py:6 | the comprehension's table holds exactly the configured tokens; each maps to a user holding it, with no later user holding it too |
| `Auth.VerifyToken` | auth.py:8-9 | `verify_token(t)` returns a configured user whose token is `t`, and `None` exactly when no user has token `t` |
| `Auth.VerifyTokenLastWins` | auth.py:6-9 | when several users share a token, the one listed last is returned |
| `Auth.GetPermissions` | auth.py:11-15 | `get_permissions(t)` is the configured permission of `verify_token(t)` when that name is non-empty, and `None` otherwise |
| `Auth.PermissionsOfOwner` | auth.py:11-15 | the permission looked up for a token is the one configured for its last owner, or `None` if that owner's name is empty |
| `Auth.UnknownToken` | auth.py:8-15 | a token nobody holds gives `None` from both lookups |
| `Instruments.GetOutcome` | instruments.py:167-180 | `get_instrument` returns the stored handle when present; otherwise a new handle with timeout 10000; it raises exactly when the address is absent and the open fails |
| `Instruments.CloseErrors` | instruments.py:185-190 | the logged close errors are exactly the registered addresses whose close raised, each with that exception |
| `Instruments.Registry.constructor` | instruments.py:9 | the registry starts empty |
| `Instruments.Registry.GetInstrument` | instruments.py:167-180 | present address: stored handle returned, registry unchanged; absent address, open succeeds: exactly that key is added (appended to the order), with timeout 10000, and nothing else changes; failed open: connection error, registry unchanged |
| `Instruments.Registry.Delete` | app.py:129 | `del` removes that address, and only that one, from the map and the order |
| `Instruments.Registry.CloseAll` | instruments.py:182-194 | `close` is attempted on every handle, in insertion order; each raised close is logged; the registry ends empty whatever the closes did |
| `Instruments.Registry.Snapshot` | instruments.py:204-205 | the open-connection count equals the number of listed addresses and of registered handles; the addresses are the registered ones in insertion order, each listed once |
| `Instruments.GetSystemInfo` | instruments.py:196-212 | a failed listing gives the failure report; otherwise the listing, version "PyVISA" and the registry snapshot (addresses in insertion order), read only; the backend description is passed through |
| `Instruments.TestInstrumentConnection` | instruments.py:132-165 | gives `connected` with the stripped reply iff open, query and close all succeed; `no_response` iff only the query fails; `connection_failed` when the open fails (no close) or when a close raises; the handle is closed once or twice whenever it was opened |
| `Discovery.GpibResources` | instruments.py:18-19 | every kept resource contains "GPIB" |
| `Discovery.GpibResourcesCount` | instruments.py:18-19 | each resource containing "GPIB" is kept as many times as it is enumerated; no other resource is kept |
| `Discovery.GpibResourcesOfConcat` | instruments.py:18-19 | filtering commutes with concatenation, so enumeration order is kept |
| `Discovery.InstrumentTypeOfFields` | instruments.py:33 | the instrument type of a reply made of comma-free fields is its second field, stripped |
| `Discovery.InstrumentTypeWithoutComma` | instruments.py:33 | a reply without a comma has type "Unknown" |
| `Discovery.ParseIdn` | instruments.py:80-87 | the unpacking fails exactly when the reply has a comma but not exactly three of them, and then reports the field count |
| `Discovery.ParseIdnWithoutComma` | instruments.py:80-87 | a reply without a comma is all manufacturer, and the other three fields are "Unknown" |
| `Discovery.ParseIdnFourFields` | instruments.py:80-87 | a reply of four comma-free fields parses into those four fields, stripped |
| `Discovery.AdapterEntry` | instruments.py:20-49 | a failed open or close gives status `error` with that exception; otherwise status `available` with the stripped reply and its type, or "No response"/"Unknown" when the query raises |
| `Discovery.AdaptersPerResource` | instruments.py:18-50 | the adapter list has exactly one entry per GPIB resource, in enumeration order, each built from that resource's probe |
| `Discovery.GetGpibAdapters` | instruments.py:11-64 | a failed listing gives `success: False` with no adapters; otherwise the loop's list is the per-GPIB-resource list and `total_found` is its length |
| `Discovery.InstrumentEntry` | instruments.py:74-115 | `error` iff the open or close raised; `connected` iff the stripped reply parses, and then its four fields are the entry's; otherwise every field is "Unknown" |
| `Discovery.IdentifyWithoutComma` | instruments.py:79-90 | a reply without a comma gives `connected` with the whole reply as manufacturer and "Unknown" elsewhere |
| `Discovery.IdentifyFourFields` | instruments.py:79-90 | a reply of four comma-separated fields gives `connected` with those fields stripped and `full_idn` the stripped reply |
| `Discovery.IdentifyOtherFieldCount` | instruments.py:79-100 | a reply with a comma but not four fields gives `connected_no_response` with every field "Unknown" |
| `Discovery.InstrumentsPerResource` | instruments.py:72-115 | the instrument list has exactly one entry per GPIB resource, in enumeration order |
| `Discovery.ListConnectedInstruments` | instruments.py:66-130 | a failed listing gives `success: False` with no instruments; otherwise the loop's list is the per-GPIB-resource list and `total_connected` is its length |
| `App.GetCurrentUser` | app.py:32-40 | 401 iff the header is missing or does not start with "Bearer "; an accepted token is the header minus "Bearer " and has a non-empty owner; every other refusal is 403 |
| `App.BearerHeader` | app.py:34-40 | the header "Bearer " + t authenticates exactly t when t is accepted, and gives 403 otherwise |
| `App.AuthenticatedOwner` | app.py:37-39 | a token is accepted exactly when its last owner has a non-empty name, so a token whose last owner has the empty name is refused; a token nobody holds is refused |
| `App.WriteGate` | app.py:98-100 | authentication errors pass through unchanged; writing passes only with permission "readwrite", and is refused with 403 otherwise |
| `App.WriteAllowedIffReadWrite` | app.py:98-100 | for a known token, writing is allowed exactly when its owner is configured "readwrite" |
| `App.WriteScenario` | app.py:98-100 | with a sample configuration, "abc123" (readwrite) may write, a read-only token gets 403, and a missing scheme or missing header gets 401 |
| `App.ReadGpib` | app.py:83-92 | authentication only; an auth failure leaves the registry untouched; then `get_instrument` and the query "*IDN?", whose raw reply is returned; other failures are 500 |
| `App.QueryGpib` | app.py:111-120 | authentication only; then `get_instrument` and the caller's command as a query, whose raw reply is returned; other failures are 500 |
| `App.WriteGpib` | app.py:94-109 | a refused write gate (401/403) is passed on as it is and the registry is untouched; then `get_instrument` and the write; other failures are 500 |
| `App.CloseInstrument` | app.py:122-136 | an absent address gives `success: False` with the registry unchanged; a present one whose close succeeds loses exactly that entry; a close that raises leaves the entry in place and gives 500 |
| `App.CloseAllConnections` | app.py:138-146 | after authentication, every handle is closed in order and the registry ends empty, with `success: True` |
| `App.ShutdownEvent` | app.py:148-150 | the shutdown hook closes every handle and empties the registry unconditionally |

## Left out

- The pyvisa library (`ResourceManager`, `open_resource`, `query`, `write`, `close`, `list_resources`) is foreign code. Its results are inputs to the model (module `Visa`), and no bus I/O is modelled.
- Real timeout behaviour: a registry handle only records its timeout value (10000). The 5000 ms timeout set by `test_instrument_connection` is not recorded because that handle is discarded. A timeout assignment that raises is not modelled.
- `Instruments.TestInstrumentConnection`: a handle's close is assumed to behave the same on both calls. The source may call close twice on one handle, and a close that raised once and then succeeded is not modelled.
- Logging (`logger.*`) is side output. The close errors that `close_all_instruments` logs are returned as a sequence instead.
- FastAPI plumbing is not modelled:
  - routing, `Depends`, the CORS middleware and `uvicorn.run`;
  - the HTML root, which reads `client.html` from disk;
  - the endpoints `get_system_information`, `list_gpib_adapters`, `list_instruments` and `test_connection`. Each is authentication followed by one function that catches its own exceptions, so its 500 branch cannot be reached. Their behaviour is `App.GetCurrentUser` followed by the modelled function.
- Loading and parsing `config.json` is I/O: the `users` object is an input. A user entry without a `token` or `permissions` key, and permission values that are not strings, are not modelled.
- Error-message text is not modelled. Errors are kinds (`Detail`, `Failure`, `NoResponseCause`) carrying the library's opaque reason. The unpacking error carries the field count in place of Python's message.
- The constant `'type': 'GPIB'` field of adapter entries is not represented.
- Handles are values (session and timeout). Python object identity of handles and their closed state after `close` are not tracked.
- Concurrency: requests race on the unguarded global dict. Each operation is modelled as atomic and sequential.
- `test_client.py` only sends HTTP requests and prints the replies. It has no logic to model; its token `"abc123"` appears in `App.WriteScenario`.
