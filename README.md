# apollo-client core, modelled in Dafny

Go's apollo-client keeps a program's configuration struct in step with an Apollo configuration
server. This project models the logic at its core and proves properties of that model.

- **Binding engine** (`apollo.dfy`, module `Apollo`):
  - `parserConfig` reads the struct tags into a table from remote key to field.
  - `setValue` turns a raw string into a typed field value, following Go's `strconv` rules (`strconv.dfy`, module `Strconv`).
  - `Update` applies a batch of changes and then invokes each distinct callback once, passing the struct as it was before.
  - `newConfigUpdater` checks what it is handed.
  - The seeding loop of `WatchConfig` sets the initial values.
- **Reflection** (`govalues.dfy`, module `GoValues`): the parts of Go's reflection these use are plain data.
  - A struct type is its fields in declaration order with their tags, plus the method sets of the type and of its pointer type.
  - A struct value is one value per field.
- **String helpers and the struct copy** (`common.dfy`, module `Common`): `httpurl`, `notificationURL`, `configURL`, `copyStruct`, `elem` and `isLower`.
- **Node directory** (`appconfig.dfy`, module `AppConfigs`):
  - the bootstrap host (`getHost`);
  - the back-off window (`setNextTryConnTime`, `isConnectDirectly`);
  - the server directory: `selectHost`, `setDownNode` and the store loop that fills it;
  - the URL suffix builders.
- **Retry and failover** (`request.dfy`, module `Requests`):
  - `request` is a bounded retry loop over abstract network outcomes;
  - `requestRecovery` fails over across the directory.
- **Default cache** (`cache.dfy`, module `Cache`): a string map behind `Get`/`Set`/`Del`/`Range`, and its factory.

**Objects the source updates in place are classes:**
- the caller's configuration struct (`Apollo.Record`);
- the updater (`Apollo.ConfigUpdater`);
- an `AppConfig`;
- the package globals `appConfig` and `servers` (`AppConfigs.Directory`);
- the cache.

**Loops are methods with loop invariants**, proved against recursive specification functions, which are in turn described by lemmas. Some orders are left unspecified in Go:
- the order of a Go map range;
- the order of `sync.Map.Range`.

The methods take either order through `:|`, and return it as a ghost value so that their contracts can name it.

**Outside influences are parameters:**
- the clock: `now`, in Unix seconds;
- the network: `net(url, k)`, the k-th attempt's outcome;
- `url.QueryEscape`: `esc`;
- `strconv.ParseFloat`: `parseFloat`;
- `GetStringValue`: `getString`;
- the internal IP and the current release key.

## Model

| member | source | states |
|---|---|---|
| Strconv.ParseUint | apollo.go:229-273 | a successful parse is below 2^bits; an error names ParseUint and the input |
| Strconv.ParseUintAccepts | apollo.go:229-273 | ParseUint succeeds exactly on non-empty digit strings whose decimal value fits the bit size, gives that value, and reports a digit string too large as a range error |
| Strconv.ParseDigitsSpec | apollo.go:233 | the digit loop succeeds exactly on digit strings within the maximum and reads their decimal value; one past the maximum is a range error |
| Strconv.ParseIntAs | apollo.go:184-228 | a successful ParseInt/Atoi lies in [-2^(bits-1), 2^(bits-1)); an error names the function and the input |
| Strconv.ParseIntAccepts | apollo.go:184-228 | ParseInt/Atoi succeeds exactly when the text after one optional sign is a non-empty digit string whose signed value fits the width, and gives that value; a digit string outside the width is a range error, nothing after the sign a syntax error |
| Strconv.ParseBool | apollo.go:274-282 | an error is a syntax error naming ParseBool and the input |
| Strconv.ParseUintRoundTrip | apollo.go:229-273 | formatting a number that fits and parsing it back gives the number |
| Strconv.ParseIntRoundTrip | apollo.go:184-228 | formatting an integer in range and parsing it back gives the integer |
| Strconv.ParseBoolRoundTrip | apollo.go:274-282 | FormatBool then ParseBool gives the boolean back |
| GoValues.FieldIndex | apollo.go:175 | FieldByName finds the first field with the name, or reports that no field has it |
| GoValues.FieldIndexAt | apollo.go:175 | with distinct field names, looking up field i's name finds field i |
| GoValues.Zero | common.go:83 | the zero value of a kind is a value of that kind |
| Common.HttpURL | common.go:31-37 | the result has the http or https scheme, ends with the input, and is the input or "http://" + input |
| Common.HttpURLIdempotent | common.go:31-37 | an address with a scheme is kept, so httpurl is idempotent |
| Common.ServerAddr | common.go:40-43 | MetaAddr when it is set, IP otherwise |
| Common.NotificationURL | common.go:39-49 | the long-poll URL has a scheme and starts with the server address + "/notifications/v2?appId=" |
| Common.NotificationURLInjective | common.go:39-49 | with an escape that removes '/', '?' and '&' and loses nothing, two equal long-poll URLs of the same server have the same app id, cluster and notifications |
| Common.ConfigURL | common.go:51-63 | the config URL has a scheme, starts with the server address + "/configs/", and ends with "?releaseKey=" + the release key unescaped + "&ip=" + the local IP |
| Common.ConfigURLInjective | common.go:51-63 | with an escape that removes '/', '?' and '&' and loses nothing, two config URLs of the same server that are equal have the same app id, cluster and namespace, and also the same release key and IP when no release key holds '&' |
| Common.MetaAddrOverridesIP | common.go:40-43 | when MetaAddr is set, IP does not affect either URL |
| Common.ZeroValues | common.go:83 | the new struct starts with a value of the right kind in every field |
| Common.ExportedCopy | common.go:88-94 | the copy has the same type and a value of the right kind in every field |
| Common.ExportedCopyFields | common.go:88-94 | exported fields equal the original's; unexported ones are zero |
| Common.ExportedCopyIdempotent | common.go:65-101 | copying a copy changes nothing |
| Common.ExportedCopyAllExported | common.go:88-94 | a struct with only exported fields is copied to an equal struct |
| Common.CopyFields | common.go:88-94 | the field loop leaves exactly the exported copy's values: exported fields carried over, the others zero |
| Common.CopyStruct | common.go:65-101 | nil and anything that is not a struct or a pointer to one give nil; a struct gives its exported copy; a pointer to a struct gives a pointer to the exported copy |
| Common.Elem | common.go:103-110 | a pointer gives its target; any other value is returned unchanged |
| Common.IsLower | common.go:112-119 | true exactly when the string is non-empty and starts with 'a'..'z' |
| Apollo.RemoteKey | apollo.go:129-132 | the apollo_key tag when it is present and non-empty, else the field name |
| Apollo.TableSpec | apollo.go:122-149 | every bound field's remote key is in the table; every entry is the binding of a bound field with that key, carrying the callback and default tags verbatim |
| Apollo.TableLast | apollo.go:148 | for a key shared by several fields, the last field with that key holds the entry |
| Apollo.TableSound | apollo.go:122-149 | for a well-formed type, every entry names an existing field, and different keys name different fields |
| Apollo.FirstBadSpec | apollo.go:136-140 | no error exactly when every bound field's callback is empty or a method of the type as passed; otherwise it is the callback tag of the first bound field that fails this |
| Apollo.TableCallbacks | apollo.go:136-140 | after a successful parse, every table entry's callback is empty or an existing method |
| Apollo.TestConfigCallbacks | apollo.go:136-140 | the test struct passed by value is rejected over OnDb; passed by pointer it is accepted |
| Apollo.TestConfigTable | apollo_test.go:29-32 | the table of the test struct is the one the test expects |
| Apollo.Coerce | apollo.go:179-302 | a converted value has the field's kind; strings are stored verbatim; any other kind of field is unsupported; every error is a parse error or an unsupported type |
| Apollo.CoerceSigned | apollo.go:184-228 | a signed integer field parses to a value within its width; a failure is a parse error |
| Apollo.CoerceSignedParser | apollo.go:184-228 | that parse is Atoi for int and ParseInt at the field's width otherwise |
| Apollo.CoerceSignedAccepts | apollo.go:184-228 | a non-blank value for a signed field is accepted exactly when it is an optionally signed digit string within the width, and gives its signed decimal value; out of range is a Range error, a bare sign or nothing a Syntax error, each naming Atoi for int and ParseInt otherwise |
| Apollo.CoerceUnsignedAt | apollo.go:229-273 | an unsigned field parses within its width |
| Apollo.CoerceBlank | apollo.go:179-281 | a whitespace-only value sets integer fields to 0 and bool fields to false |
| Apollo.CoerceUnsigned | apollo.go:229-273 | a non-blank value is accepted exactly when it is a base-10 digit string within the width, and gives its decimal value |
| Apollo.CoerceSignedRoundTrip | apollo.go:184-228 | a formatted in-range integer is read back as itself |
| Apollo.CoerceUnsignedRoundTrip | apollo.go:229-273 | a formatted in-range unsigned number is read back as itself |
| Apollo.CoerceUntrimmed | apollo.go:179-192 | values are not trimmed: " 1" is a syntax error for an int field and stays " 1" for a string field |
| Apollo.TestConfigSetPort | apollo_test.go:40-42 | setting DbPort from the decimal text of any 64-bit number sets field 1 to that number, as "8080" gives 8080 |
| Apollo.FieldWrite | apollo.go:174-306 | a field that does not exist, is unexported, or was not passed by pointer cannot be set, and this is the only cause of that error; otherwise a failed conversion gives its error, a converted value for a field of a defined type gives the assignment panic, and any other field gets the converted value |
| Apollo.DefinedFieldPanics | apollo.go:184-228 | a field of a defined type over a signed kind, as time.Duration is over int64, set from "5" ends in the assignment panic; set from "5s" it is the parser's syntax error first |
| Apollo.Apply | apollo.go:100-111 | the batch keeps the record's shape; a failure is FieldCannotBeSet, a parse error, an unsupported type or the assignment panic |
| Apollo.KeysOfSpec | apollo.go:100 | the keys of the ordered batch are exactly the keys it lists |
| Apollo.ApplyMethods | apollo.go:110 | every collected callback name, the empty one included, belongs to some table entry |
| Apollo.ApplyCollects | apollo.go:100-111 | a batch that goes through collects the callback name of every key it matches, "" for a field without a callback |
| Apollo.BatchValues | apollo.go:100-111 | after a batch without failure, whatever its order, a field takes the value written for the key that binds it, and a field no key binds keeps its value |
| Apollo.BatchFailure | apollo.go:106-108 | a failed batch fails at some position whose key is bound and whose write fails |
| Apollo.BatchUnmatched | apollo.go:101-104 | keys not in the table change nothing and collect no callback |
| Apollo.InvokeSpec | apollo.go:113-117 | calls go in the given order, each logged with the argument; the run stops at the first missing or faulting method; it succeeds exactly when every name is an existing, non-faulting method |
| Apollo.SeedBatch | apollo.go:18-25 | one entry per key; each bound key reads its value through getString with its default tag |
| Apollo.SeedBatchExtends | apollo.go:26-28 | a batch that has failed at key i ends the same whatever keys follow: the seed stops at its first failure |
| Apollo.ConfigUpdater.ParserConfig | apollo.go:122-152 | the error is "invalid callback" for the first field with a callback the type lacks; on success the table is entered into fieldsMeta |
| Apollo.ConfigUpdater.SetValue | apollo.go:174-306 | the record changes at exactly the written field, to the converted value; on any error it keeps its values |
| Apollo.ConfigUpdater.CallMethod | apollo.go:154-172 | a method the value lacks is "method not exist", and nothing is called; an existing one is called once, and a faulting one becomes a panic error |
| Apollo.ConfigUpdater.ApplyChanges | apollo.go:99-111 | the record takes the values of the batch in the order taken, and the method set is the one collected |
| Apollo.ConfigUpdater.CallCallbacks | apollo.go:113-117 | each collected name is called at most once; on success every one is called; the log is the invocation of that order |
| Apollo.ConfigUpdater.Update | apollo.go:97-120 | see the list after this table |
| Apollo.ConfigUpdater.UpdateValues | apollo.go:100-111 | after a successful batch, each field holds the written value of the key that binds it, or its old value |
| Apollo.ConfigUpdater.CallbackFailures | apollo.go:110-117 | a collected empty name makes the callback run fail with "method not exist" |
| Apollo.ConfigUpdater.Seed | apollo.go:18-29 | the record is the application of the seed batch, in key order, and stops at the first error |
| Apollo.NewConfigUpdater | apollo.go:69-95 | a value that is not a struct or a pointer to a struct is "invalid config"; otherwise the updater binds the struct (a copy when passed by value), and the parse result decides the error |
| Apollo.WatchConfig | apollo.go:12-29 | creation errors are passed on; on success the record holds the seeded values |
| AppConfigs.GetHost | app_config.go:60-68 | the host starts with "http" and ends with "/", and is the Ip, the Ip + "/", or "http://" + Ip + "/" |
| AppConfigs.GetHostFixpoint | app_config.go:60-68 | getHost leaves an Ip unchanged exactly when it starts with "http" and ends with "/" |
| AppConfigs.GetHostIdempotent | app_config.go:60-68 | applying getHost twice equals applying it once |
| AppConfigs.AppConfig.IsConnectDirectly | app_config.go:78-84 | true exactly when NextTryConnTime is non-negative and after now; a window closed at now stays closed at every later time |
| AppConfigs.AppConfig.SetNextTryConnTime | app_config.go:71-84 | NextTryConnTime becomes now + period; with a positive period and now + period not negative the config connects directly now, and at no time from now + period on |
| AppConfigs.MarkDown | app_config.go:115-123 | the server at the host is marked down; the keys and every other entry stay the same |
| AppConfigs.MarkDownShrinks | app_config.go:115-123 | marking a host down removes exactly that host from the set of servers that are up |
| AppConfigs.StoreAllAt | app_config.go:197-208 | after the store, a key is present exactly when it was before or is listed; an unlisted key keeps its entry; a listed key holds the last server listed under it |
| AppConfigs.StoreAllUp | app_config.go:197-208 | a listed key all of whose listed servers are up is up after the store |
| AppConfigs.Directory.GetAppConfig | app_config.go:228-233 | the config passed in when there is one, else the package's |
| AppConfigs.Directory.SelectHost | app_config.go:86-104 | outside the back-off window, the bootstrap host; inside it, a server that is up, or "" only when none is up |
| AppConfigs.Directory.SetDownNode | app_config.go:106-124 | nothing changes for an empty host or a missing config; a host equal to getHost() sets the window to now + 60; the directory becomes MarkDown of the host |
| AppConfigs.Directory.SetDownNodeOn | app_config.go:106-124 | setDownNode acting on the config it is given: the window opened is that config's, the directory's own config stays where it is, and the directory becomes MarkDown of the host |
| AppConfigs.Directory.StoreServers | app_config.go:197-208 | the directory becomes the store of the list, which an empty list leaves unchanged |
| AppConfigs.ConfigURLSuffix | app_config.go:249-259 | "" exactly when there is no config; otherwise it starts with "configs/" |
| AppConfigs.ConfigURLSuffixInjective | app_config.go:249-259 | with an escape that removes '/', '?' and '&' and loses nothing, the suffix determines the app id, cluster, namespace, release key and IP |
| AppConfigs.NotifyURLSuffix | app_config.go:261-269 | "" whenever a new config is given; otherwise it starts with "notifications/v2?appId=" |
| AppConfigs.NotifyURLSuffixInjective | app_config.go:261-269 | the notify suffix determines the app id, cluster and notifications |
| AppConfigs.ServicesConfigURL | app_config.go:271-276 | the URL starts with getHost() + "services/config?appId=" and ends with "&ip=" + the internal IP |
| AppConfigs.ServicesConfigURLInjective | app_config.go:271-276 | under the same host and such an escape, equal service list URLs have the same app id and internal IP |
| Requests.Timeout | request.go:26-30 | the configured timeout when there is a config and it is non-zero, otherwise connectTimeout |
| Requests.FirstFinalSpec | request.go:36-81 | the first attempt that gets 200 with a readable body or 304, or the fact that no such attempt exists |
| Requests.Request | request.go:23-88 | the reply is the answer to the first final outcome within maxRetries attempts, else "over max retry still error"; the trace shows one Get per attempt and a pause after each bad status |
| Requests.RequestAttempts | request.go:32-41 | between 1 and maxRetries attempts; one Get per attempt; only the last attempt can be final, and fewer than maxRetries attempts means the last one was final |
| Requests.RequestReplyCases | request.go:52-87 | the first final outcome gives the callback's answer, or (nil, nil) without a callback; no final outcome in maxRetries attempts gives "over max retry still error" |
| Requests.TraceGets | request.go:43-79 | n attempts make exactly n Gets, each at the URL with the client timeout, and every pause lasts onErrorRetryInterval |
| Requests.MarkAllSpec | request.go:109 | marking the tried hosts keeps every key, takes each tried host down, and leaves the rest alone |
| Requests.GiveUp | request.go:109 | after a failed host is set down on the config requestRecovery was given, that config connects directly and exactly that host has left the set of servers that are up; its window becomes now + NextTryConnectPeriod when the host is the bootstrap host and is unchanged otherwise |
| Requests.RecoveryRoundAsWritten | request.go:96-110 | with a config other than the package's, outside its back-off window and whose bootstrap host fails, a round as written selects that host, fails, and leaves the package's config, the window and so its own precondition as they were |
| Requests.RecoveryRoundsAsWritten | request.go:96-110 | on such a config, any number k of rounds as written selects the same bootstrap host k times |
| Requests.SelectedStep | request.go:98 | a host that selectHost may return, the bootstrap host on a first round outside the window and otherwise a server still up, extends the hosts tried so far consistently |
| Requests.RecoveryStep | request.go:98-110 | giving up on a selected host that failed keeps the failover state: hosts tried, servers marked down, the window the bootstrap host opens |
| Requests.RecoveryAnswered | request.go:104-107 | a selected host that answered ends the failover with its reply, and it was the bootstrap host only on a first round outside the window |
| Requests.RecoveryExhausted | request.go:98-101 | when selectHost has nothing left the config connects directly, no server is up and the last error is returned; outside the window the bootstrap host was tried first |
| Requests.RecoveryRound | request.go:98-110 | one round: it returns on an answer or when no host is left, or else gives up on the selected host and leaves the failover state updated, closer to its end |
| Requests.RecoveryLoop | request.go:90-113 | the loop of requestRecovery ends in the state described by the list after this table |
| Requests.RequestRecovery | request.go:90-113 | see the list after this table |
| Cache.Lookup | cache.go:23-29 | a present key gives its stored value and no error; a missing key gives "" and "load default cache fail" |
| Cache.LookupAfterStore | cache.go:23-34 | after Set, Get of that key gives the value set, and Get of any other key is unchanged |
| Cache.LookupAfterDelete | cache.go:23-53 | after Del, Get of that key fails, and Get of any other key is unchanged |
| Cache.Visit | cache.go:37-46 | the arguments Range passes as written: the first is the key |
| Cache.VisitFixed | cache.go:37-46 | the arguments Range is meant to pass: the key and the value stored under it |
| Cache.RangePassesKey | cache.go:42 | for a cache holding "a" → "1", the written Range passes a second argument other than the stored value, the fixed one passes the stored value |
| Cache.DefaultCache.Get | cache.go:23-29 | the value and error are the Lookup of the key in the store |
| Cache.DefaultCache.Set | cache.go:31-34 | the store maps the key to the value and nothing else changes; no error |
| Cache.DefaultCache.Del | cache.go:50-53 | the key is gone, nothing else changes, and the result is true |
| Cache.DefaultCache.Range | cache.go:36-48 | each key is visited at most once, f held on every call but possibly the last, a false from f stops the scan and otherwise every key is visited; each call's arguments are those of the written code |
| Cache.DefaultCache.RangeFixed | cache.go:36-48 | the same scan, with each call's second argument the value stored under its key |
| Cache.DefaultCacheFactory.Create | cache.go:58-60 | a fresh, empty cache |

**Apollo.ConfigUpdater.Update** (`apollo.go:97-120`):
- The record takes the batch's values, in the order taken.
- A field failure returns that error. No callback runs.
- On success:
  - every distinct collected callback is called at most once, with the export copy of the record as it was before the update;
  - if all callbacks succeed, every collected callback has been called.
- Without a field failure, the callback named by every key of kv that the table binds is collected; when every callback succeeds, each of them has been called.
- A key of kv bound to a field without a callback makes Update end in an error, since "" is then collected.
- A collected "" always ends in an error.
- "method not exist" arises only from "".
- Without a failure, each field holds the written value or its old value.

**Requests.RequestRecovery** (`request.go:90-113`):
- A config outside its back-off window is tried at its bootstrap host first (`getHost`, app_config.go:87-89): that host is either the first one given up on or the one that answered.
- Every other host requested was a server that was up when selectHost returned it, after the hosts before it had been marked down.
- The window of the config is now + NextTryConnectPeriod when the bootstrap host was given up on, and stays as it was otherwise.
- Every host given up on is non-empty and failed.
- No host is given up on twice.
- Each host given up on is marked down.
- On success, the reply is that host's request reply, and the host was not given up on before.
- When no host is left:
  - the config connects directly;
  - no server is up (a server stored under the key "" still could be);
  - the reply carries the last error, or nil if no host was tried.

## Findings

| source | as written | input that shows it | evidently intended | confidence | as-written member | corrected member |
|---|---|---|---|---|---|---|
| cache.go:36-48 | `Range` takes the value through `key.(string)`, so `f` receives the key twice | a cache holding "a" → "1": `f` is called with ("a", "a") | `f` receives ("a", "1"), the key and its stored value | high (not executed) | Cache.RangePassesKey | Cache.DefaultCache.RangeFixed |
| request.go:90-113 | `requestRecovery` selects hosts through its parameter `appConfig`, which shadows the package variable, while `setDownNode` opens the back-off window of the package variable only | a config other than the package's, outside its back-off window (NextTryConnTime negative or not after now), whose bootstrap host fails: every round selects that host again, and the loop never ends | a failed bootstrap host opens the window of the config the hosts were selected from, so the next round moves on to the servers | medium (not executed; no caller of `requestRecovery` is part of this model) | Requests.RecoveryRoundAsWritten | Requests.RequestRecovery |

`Requests.RecoveryRoundAsWritten` ends in a state that meets its own precondition, and `Requests.RecoveryRoundsAsWritten` runs it k times for any k, selecting the same host each time, so the loop as written repeats it forever. `Requests.RequestRecovery` marks the host down through `AppConfigs.Directory.SetDownNodeOn` on its own config, which for the package's config is what the source does, and terminates for every config.

`Cache.DefaultCache.Range` models the code as written: each call's arguments are `Cache.Visit`, the key twice. `Cache.DefaultCache.RangeFixed` passes `Cache.VisitFixed`, and its contract states that every call's second argument is the value stored under its key.

## Left out

**Concurrency and background work:**
- The goroutines and the channel loop of `WatchConfig` (apollo.go:31-48) are not modelled. The same goes for the timer loop `initServerIpList` and `initConfig`/`getLoadAppConfig`. These are concurrency, non-termination and bootstrap plumbing.
- The `sync.Map` is a plain map, so concurrent access is not modelled.

**Callbacks:**
- Apollo.ConfigUpdater.CallMethod: a callback's effect on the struct is not modelled.
  - A call is logged with its argument.
  - Methods that panic, or that do not accept the argument, are the type's `faulting` set, which is reported as a panic error.
- Requests.Request: the success and not-modified callbacks are pure functions. Their side effects are not modelled, such as the server store that `syncServerIpListSuccessCallBack` performs.

**Floats, parsing and decoding:**
- Floating-point fields (apollo.go:283-300) call the `parseFloat` parameter. Float parsing is not modelled.
- `json.Unmarshal` is not modelled. Servers are handed over already decoded, and a decoded server has `IsDown` false. JSON decoding of the server list is not modelled (app_config.go:188-195), nor is json_config.go.
- `url.QueryEscape` is the parameter `esc`. The injectivity lemmas assume two properties of it: that '/', '?' and '&' are escaped, and that the escape is injective.

**Other parameters:**
- `getLocalIP`, `getInternalIp`, `getCurrentApolloConfigReleaseKey`, `GetAllKeys`, `GetStringValue` and `WatchUpdate` are parameters or are not modelled. log.go is not part of this model.
- `getConfigUrl` and `getConfigUrlByHost` are not modelled. They call `getHost` and escape as the suffix builder does.

**Reflection and the record:**
- Apollo.FieldWrite, Apollo.ConfigUpdater.SetValue: `reflect.Value.Set` panics on a field of a defined type such as `time.Duration`, and nothing recovers. The model returns that panic as the error `AssignPanic`, which ends the write and, in `Update` and the seeding loop, the batch; in Go the panic unwinds the caller instead.
- Reflection is reduced to an explicit field list and method sets. Typed nil pointers, embedded structs, and a nil config are not modelled. For a nil config, `reflect.TypeOf(nil).Kind()` panics.
- Go strings are bytes. Here they are character sequences, and every character is ASCII-like in the parsers.

**Preconditions beyond the source:**
- Apollo.NewConfigUpdater, Apollo.WatchConfig: these require the struct type to be well formed and its values to be of the fields' kinds. Go guarantees the kinds. Well-formed means distinct field names; Go also allows several blank `_` fields, and those are not modelled.
- AppConfigs.AppConfig.SetNextTryConnTime: it does not model the int64 wrap-around of now + period, because the clock is far from the int64 limit.
- AppConfigs.NotifyURLSuffix: it requires a config when no new config is given, because Go dereferences nil there.
- AppConfigs.Directory.SetDownNode: Go flips `IsDown` through a pointer shared with the map. Here the entry is replaced by a copy with `IsDown` set, which is the same as long as no other key holds that pointer.
- Requests.RequestRecovery has one extra requirement and two departures from the code:
  - Departure: it opens the window of the config it is given, where Go opens that of the package's `appConfig`; the two agree when the config is the package's. The Findings table explains why.
  - Requirement: the clock must not be before 1970 (`now >= 0`), so that opening the window really makes the config connect directly.
  - Departure: `now` is one fixed time for the whole failover, where Go reads the clock on each call.
