# node-proxy-cycler in Dafny

A model of the node-proxy-cycler library, with proofs. The library is an
in-memory rotation pool of HTTP proxies. It has two parts:

- `HTTPProxy` (lib/httpproxy.js) is one proxy endpoint. It holds a validated
  host, port and protocol. It also keeps a `used` map that records, for each
  normalised target, when the proxy was last used against that target.
- `Cycler` (lib/cycler.js) is the pool. It is an ordered list of `HTTPProxy`
  objects with no two sharing a `(host, port)` key. It supports `add`,
  `remove` and `use`, and `get(target)` picks a proxy for a target: first a
  proxy never used against that target, otherwise the proxy used against it
  longest ago.

The model is split into four modules:

- `Results` (results.dfy): the `Option` and `Result` wrappers, and one
  `Error` kind per exception message of the modelled operations.
- `ProxyEntry` (httpproxy.dfy): the entry.
  - Ports are values as JavaScript sees them: a number, `NaN`, or a string
    that is not parsed yet. `parseInt` is a leading-decimal-digit parse.
  - `validateProxy` and `validateTarget` are functions. The target
    normalisation is written out: drop an optional `http://` or `https://`,
    then an optional `www.`, both ignoring case, then cut at the first `/`.
  - `HttpProxy` is a class. Its `used` map is a field that `Use` updates in
    place.
- `PoolSpec` (pool_spec.dfy): the pool as a value, a sequence of entries.
  - There is one function for each pool operation: `_exists`, `add`,
    `remove`, `use`, `get`, and the constructor's loop.
  - The lemmas state what the library promises: distinct keys are kept; `add`
    is idempotent; `remove` undoes `add`; `use` changes nothing outside its
    own entry; `get` picks the first unused entry, or else the oldest one,
    with ties going to the lowest index; using the chosen proxy makes `get`
    rotate to another.
- `ProxyPool` (cycler.dfy): the class `Cycler`, which holds a sequence of
  `HttpProxy` objects.
  - Each method runs the source's loop or update in place.
  - Each method is proved equal to the `PoolSpec` function of the pool's value
    before the call. A usage recorded through the pool reaches the shared
    `HttpProxy` object and nothing else.

The IP, domain and URI checks come from third-party packages. The model takes
them as a `Validators` value of four string predicates. The current time is a
`now` parameter, and dates are integers.

The model follows the code, including these behaviours of it:

- `validateTarget` does not extract a URI's hostname. It only removes the
  scheme and `www.` text and cuts at the first `/`, as the regular expression
  at lib/httpproxy.js:79 does. So:
  - a port or credentials stay in the key;
  - an `ftp://` URI is keyed by `ftp:`;
  - `example.com` on its own is a target only when the URI or IP check
    accepts it, and then it is its own key;
  - the normalisation is not idempotent. Each pass drops one `www.`, so
    `http://www.www.a` has the key `www.a`, and the `UriKey` of that is `a`.
- The port has no upper bound. Any parsed port other than 0 and NaN is
  accepted.
- A proxy has no credentials and no SSL flag, only a protocol, which is
  `http` or `https`.
- `use` on an unknown proxy adds it before it checks the target and the date.
  When those checks then fail, the added proxy stays in the pool.

## Model

| member | source | states |
|---|---|---|
| `ProxyEntry.ParseInt` | lib/httpproxy.js:16 | a port never stays text after parsing; a number is kept and NaN stays NaN; a string parses to a number exactly when it starts with a digit, and that number is non-negative |
| `ProxyEntry.ParseDigitsThenRest` | lib/httpproxy.js:16 | a string made of one or more digits, then nothing or a non-digit, parses to the value of those digits, whatever follows them and however many leading zeros they have |
| `ProxyEntry.ParseDecimal` | lib/cycler.js:67 | a port written as a decimal string parses back to the number it spells, so `"8080"` and `8080` name the same proxy |
| `ProxyEntry.ParseIntIdempotent` | lib/cycler.js:67-69 | the second parse in the constructor, after the one in `add`, changes nothing |
| `ProxyEntry.ValidateProxy` | lib/httpproxy.js:54-58 | succeeds exactly when the host is non-empty, the port is a non-zero number, the host passes the IPv4 or domain check, and the protocol is `"http"` or `"https"`; on success it gives back that port and protocol; otherwise the error is the invalid-proxy error |
| `ProxyEntry.StripScheme` | lib/httpproxy.js:79 | returns a suffix of the text, 8 characters shorter exactly when the text starts with `https://` and 7 shorter exactly when it starts with `http://`, ignoring case, and otherwise the whole text |
| `ProxyEntry.StripWww` | lib/httpproxy.js:79 | removes 4 characters exactly when the text starts with `www.` ignoring case, and otherwise nothing |
| `ProxyEntry.BeforeSlash` | lib/httpproxy.js:79 | `split('/')[0]`: a prefix with no `/`, followed in the input by a `/` or by the end |
| `ProxyEntry.UriKey` | lib/httpproxy.js:78-80 | the key of a URI contains no `/` and occurs in the input as a contiguous piece |
| `ProxyEntry.ValidateTarget` | lib/httpproxy.js:66-83 | fails, with the target error, exactly when the target is missing or is neither a URI nor an IP; an IP that is not a URI is returned unchanged; a URI is reduced to its `UriKey` |
| `ProxyEntry.BeforeSlashStopsAtSlash` | lib/httpproxy.js:79 | a slash-free host followed by a path or by nothing is cut back to exactly that host |
| `ProxyEntry.UriKeyIsHost` | lib/httpproxy.js:78-80 | for any `http://` or `https://` scheme in any case, with or without `www.`, then a slash-free host and a path, the key is the host |
| `ProxyEntry.KeyOfKeyDropsAnotherWww` | lib/httpproxy.js:79 | with `www.` written twice after the scheme, the key keeps the second `www.`, and the key of that key drops it, so normalising a key can change it |
| `ProxyEntry.ExampleTargetKey` | lib/httpproxy.js:78-80 | the URI `http://www.example.com/path` has the key `example.com` |
| `ProxyEntry.ResolveDate` | lib/httpproxy.js:28-29 | the documented date rule: no date means now, a Date is used as given, anything else is rejected with the date error |
| `ProxyEntry.AcceptsDateAsWritten` | lib/httpproxy.js:36-40 | the check as written lets a missing date through, and of a supplied value accepts exactly what the documented rule rejects |
| `ProxyEntry.DateCheckInverted` | lib/httpproxy.js:36-40 | the check as written rejects a Date and accepts a non-Date; the documented rule does the opposite in both cases |
| `ProxyEntry.RecordUse` | lib/httpproxy.js:33-45 | fails exactly when the target is invalid or the date is invalid under the documented date rule, with the target error taking precedence; on success the map gains the target's key, that key maps to the resolved date, and every other key keeps its date |
| `ProxyEntry.HttpProxy.Init` | lib/httpproxy.js:20-23 | stores host, port and protocol, and starts with an empty usage map |
| `ProxyEntry.HttpProxy.Create` | lib/httpproxy.js:15-24 | parses the port and validates; on failure it builds nothing and gives the invalid-proxy error; on success it gives a fresh entry holding the host, the parsed port and the protocol, with an empty usage map |
| `ProxyEntry.HttpProxy.Use` | lib/httpproxy.js:33-45 | on success the usage map becomes the updated map and the result is the entry itself; on failure the map is untouched |
| `PoolSpec.FindKey` | lib/cycler.js:125-133 | the index of the first entry whose host and port are strictly equal to the arguments; none exactly when no entry matches |
| `PoolSpec.FindKeyAtIndex` | lib/cycler.js:125-133 | in a list with distinct keys, each entry is found at its own index |
| `PoolSpec.TextPortNeverFound` | lib/cycler.js:128 | a port still in string form never equals a stored numeric port |
| `PoolSpec.AddTo` | lib/cycler.js:66-79 | fails exactly when the proxy does not validate; an existing key gives that entry and an unchanged list; a new key is appended at the end with an empty usage map, earlier entries unchanged |
| `PoolSpec.AddAppendsEntry` | lib/cycler.js:76-78 | a valid proxy with an absent key is appended as exactly its own entry, and the keys stay distinct |
| `PoolSpec.AddKeepsUnique` | lib/cycler.js:70-77 | `add` keeps the keys of the list distinct |
| `PoolSpec.AddIdempotent` | lib/cycler.js:70-74 | adding the same proxy a second time leaves the list as it is and returns the same entry |
| `PoolSpec.AddWithoutProtocolFails` | lib/cycler.js:69 | with no protocol, `add` fails for every host, port and list |
| `PoolSpec.RemoveFrom` | lib/cycler.js:87-96 | reports a deletion exactly when the parsed key is present; then it removes that one entry and keeps the others in order; otherwise the list is unchanged |
| `PoolSpec.RemoveDeletesOnlyThatEntry` | lib/cycler.js:90-92 | in a list with distinct keys, after `remove` the keys stay distinct, the key is gone, and the entries left are the old ones less the removed one |
| `PoolSpec.RemoveUndoesAdd` | lib/cycler.js:87-96 | removing a proxy just added to a list that lacked it gives back the original list, and reports a deletion |
| `PoolSpec.UseAt` | lib/cycler.js:116 | recording a usage on one entry keeps every identity and leaves all other entries unchanged; on success that entry's map is the one `RecordUse` gives; on failure the list is unchanged and the error is the one `RecordUse` reports |
| `PoolSpec.UseIn` | lib/cycler.js:106-117 | `use` keeps the identities of every earlier entry, in order, and adds at most one entry at the end; `UseKnownTouchesOnlyThatEntry`, `UseUnknownAppends`, `UseUnknownInvalidFails`, `UseTextPortRevalidates` and `UseKeepsUnique` state the rest |
| `PoolSpec.UseUnknownInvalidFails` | lib/cycler.js:104-113 | on a proxy the lookup misses and that fails validation, `use` gives the invalid-proxy error and leaves the list unchanged |
| `PoolSpec.UseUnknownWithoutProtocolFails` | lib/cycler.js:112-113 | as written, with no protocol, `use` on a proxy the lookup misses always gives the invalid-proxy error and leaves the list unchanged |
| `PoolSpec.UseKnownTouchesOnlyThatEntry` | lib/cycler.js:109-111 | on a proxy the lookup finds, `use` changes only that entry's usage map, exactly as `HTTPProxy.use` would |
| `PoolSpec.UseUnknownAppends` | lib/cycler.js:112-116 | on an unknown valid proxy, `use` appends it and records the usage on it; if the usage is rejected, the new entry stays in the list with an empty map |
| `PoolSpec.UseTextPortRevalidates` | lib/cycler.js:109-113 | a port given as text never finds its entry directly; `use` reaches it only through `add`, which validates host and protocol again |
| `PoolSpec.UseDecimalPortSameEntry` | lib/cycler.js:109-113 | with a valid host and protocol, a decimal port string and its number reach the same entry |
| `PoolSpec.UseKeepsUnique` | lib/cycler.js:106-117 | `use` keeps the keys of the list distinct |
| `PoolSpec.AddAll` | lib/cycler.js:24-31 | a failed load fails with the invalid-proxy error; `AddAllOkIffAllValid`, `AddAllOnlyListed`, `AddAllContainsEach` and `AddAllNewEntriesUnused` state when it fails and what a successful load gives |
| `PoolSpec.AddAllOkIffAllValid` | lib/cycler.js:12-31 | the load succeeds exactly when every listed proxy passes validation |
| `PoolSpec.AddAllOnlyListed` | lib/cycler.js:24-31 | every entry a successful load appends matches some listed proxy |
| `PoolSpec.AddAllContainsEach` | lib/cycler.js:24-31 | after the constructor's loop succeeds, the earlier entries still come first, the keys are distinct, and every listed proxy is in the pool |
| `PoolSpec.AddAllNewEntriesUnused` | lib/cycler.js:24-31 | the constructor's loop only appends, and every entry it adds starts unused |
| `PoolSpec.FirstUnused` | lib/cycler.js:46-49 | the first entry in list order with no usage for the key; none exactly when every entry has one |
| `PoolSpec.Oldest` | lib/cycler.js:50-53 | among the first `n` entries, one with the minimal date for the key, strictly older than every entry before it |
| `PoolSpec.Select` | lib/cycler.js:39-57 | nothing exactly when the pool is empty; an unused entry is chosen only if every entry before it is used; a used entry is chosen only when all are used, and then it has the minimal date and is strictly older than every entry before it |
| `PoolSpec.SelectAllUsed` | lib/cycler.js:46-56 | when every entry has been used against the key, the choice is the oldest entry over the whole list |
| `PoolSpec.ColdStartFirst` | lib/cycler.js:46-49 | the first unused entry is chosen |
| `PoolSpec.OldestFirstChosen` | lib/cycler.js:50-56 | when the entries were used in list order at strictly increasing dates, the first entry is chosen |
| `PoolSpec.TieGoesToLowerIndex` | lib/cycler.js:50 | of two entries with the same date, the later one is never chosen |
| `PoolSpec.ChosenThenUsedRotates` | lib/cycler.js:39-57 | in a pool of two or more, once the chosen proxy is used against the key later than any recorded usage, a different proxy is chosen |
| `ProxyPool.Cycler.constructor` | lib/cycler.js:15-19 | a new pool is empty, has distinct keys, and keeps the given validators |
| `ProxyPool.Cycler.Exists` | lib/cycler.js:125-133 | the loop returns the same index as `FindKey` on the pool's entries |
| `ProxyPool.Cycler.Get` | lib/cycler.js:39-57 | an invalid target gives the target error; otherwise the result is the proxy object at the index `Select` chooses, or nothing for an empty pool |
| `ProxyPool.Cycler.Add` | lib/cycler.js:66-79 | the pool's new value is the one `AddTo` gives; the result is the existing shared proxy or the appended fresh one; the keys stay distinct |
| `ProxyPool.Cycler.AddAsWritten` | lib/cycler.js:66-69 | the two-argument `add` as written always gives the invalid-proxy error and leaves the pool unchanged |
| `ProxyPool.Cycler.Remove` | lib/cycler.js:87-96 | the pool's new value and the result are the ones `RemoveFrom` gives; the proxy list loses exactly the matching object |
| `ProxyPool.Cycler.Use` | lib/cycler.js:106-117 | the result and the pool's new value are the ones the `use` function gives; the list is either unchanged or gains one fresh proxy at the end |
| `ProxyPool.Cycler.RecordOn` | lib/cycler.js:116 | recording a usage on the shared proxy object at one index changes the pool exactly as recording it on that entry's value would |
| `ProxyPool.Cycler.AddEach` | lib/cycler.js:24-31 | succeeds exactly when the constructor's loop does; the pool's new value is the one that loop gives; on failure it returns the loop's error, the invalid-proxy error |

## Left out

- The `is-ip`, `is-valid-domain` and `valid-url` packages (lib/httpproxy.js:1-3): foreign code. They are the predicates of a `Validators` value, given to every operation, with no grammar of their own.
- `parseInt` on arbitrary JavaScript values: leading whitespace, signs, `0x` prefixes, fractions and non-string objects are not modelled. A port is a number, NaN, or a string read up to its first non-digit.
- `new Date()` and `Date.getTime` (lib/httpproxy.js:37, lib/cycler.js:50): the clock is the `now` parameter, and a date is an integer time.
- The dynamic type checks of the `Cycler` constructor (lib/cycler.js:18-28): `undefined`, non-array and non-object arguments are type errors here. The constructor is an empty `constructor`, followed by `AddEach`, which runs the loop.
- `target.slice()` on a non-string target (lib/httpproxy.js:71): a target is a string or missing.
- Object-key quirks of the `used` map: keys such as `__proto__`, and `Object.keys` ordering, are not modelled. The map is a Dafny `map`.
- Exceptions are `Err` results. In the source, a throw in the middle of the constructor's loop leaves no pool at all. `AddEach` instead returns the error and keeps the proxies already added.
- Concurrency, and routing requests through a proxy: the library has neither.
- ProxyEntry.ParseInt: a `Num` port is an exact integer of any size. JavaScript numbers lose precision beyond 2^53, and `parseInt` of a number first turns it into text, so `parseInt(1e21)` is 1. Neither effect is modelled.
- ProxyPool.Cycler.AddEach: each element of its list carries a `protocol`, which it passes to the corrected `Add`. The source's loop calls `this.add(proxy.host, proxy.port)` (lib/cycler.js:30) with no protocol, so as written every non-empty list fails (see Findings).
- ProxyPool.Cycler.Use: it takes a `protocol` argument and passes it to the corrected `Add`, because the two-argument `add` of the source always fails (see Findings). The source's `use` has no protocol parameter.
- ProxyEntry.HttpProxy.Use: it resolves dates by the documented rule, `ResolveDate`. The inverted check as written is stated only by `AcceptsDateAsWritten` and `DateCheckInverted` (see Findings).

## Findings

| source | as written | input that shows it | evidently intended | confidence | as-written member | corrected member |
|---|---|---|---|---|---|---|
| lib/cycler.js:69 | `add` builds `new HTTPProxy(host, port)` without a protocol, and validation rejects every protocol other than `http` and `https`, so `add`, the constructor's loop and `use` on an unknown proxy always throw | `add("127.0.0.1", 8080)` on any pool | `add` passes a protocol through to the constructor | not executed | `ProxyPool.Cycler.AddAsWritten` | `ProxyPool.Cycler.Add` |
| lib/httpproxy.js:38-40 | `use` throws when `date` IS a Date and stores any other value | `use("1.2.3.4", someDate)` is rejected, and `use("1.2.3.4", 42)` is accepted | accept a Date, reject a non-Date, as its doc comment says | not executed | `ProxyEntry.DateCheckInverted` | `ProxyEntry.ResolveDate` |
