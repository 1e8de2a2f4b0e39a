# Tool Account Manager — a verified model of its core

Tool Account Manager is a desktop tool that keeps Google and Outlook accounts,
each with its own browser profile and, optionally, its own upstream proxy. This
project models the program logic behind that in Dafny and proves properties
of the model:

- **Per-account proxy relay** (`local_proxy_manager.py`). A browser talks to a
  loopback relay on 127.0.0.1. The relay opens a tunnel through the account's
  upstream proxy, using SOCKS5 (RFC 1928, with the username/password method
  of RFC 1929) or HTTP CONNECT.
  - `upstream.dfy` models the byte exchange. The upstream's replies are a
    scripted sequence of arrivals.
  - `local_proxy.dfy` models:
    - the proxy URL;
    - the header filters;
    - the `CONNECT host:port` parse;
    - the relay server's flags and the manager of relays.
  - `base64.dfy` and parts of `text.dfy` model the Basic credentials token and
    UTF-8.
- **Proxy catalog** (`src/core/proxy_manager.py`, `proxy_catalog.dfy`):
  - parsing `protocol://host:port[:user:pass]`;
  - adding, removing one or many, clearing dead proxies, checking one proxy.
- **Browser pool** (`src/core/browser_pool.py`, `session_pool.dfy`):
  - a bounded table of open drivers with eviction of the oldest;
  - a sweep of idle drivers, gated by `timedelta.seconds`.
- **Accounts** (`accounts.dfy`): the shared list logic of the two account
  managers.
  - `core_accounts.dfy` is `src/core/account_manager.py`, with its profile-folder
    sanitiser and load defaults.
  - `legacy_accounts.dfy` is the root `account_manager.py`.
- **Groups**:
  - `groups.dfy` is `src/core/group_manager.py`, a list of group records;
  - `simple_groups.dfy` is `src/core/simple_group.py`, a dict of groups by id.
- **Utilities**:
  - `app_state.dfy`: the state store with observers and undo;
  - `events.dfy`: the event bus;
  - `container.dfy`: the dependency-injection container;
  - `memory_tools.dfy`: the string, list and cache helpers.
- **Browser manager** (`browsers.dfy`): the parts of `src/core/browser_manager.py`
  that the program decides itself:
  - browser type normalisation and the login page;
  - the auth-cookie test;
  - the proxy-free environment for the driver installer;
  - the driver table.
- **Support**: `common.dfy` holds Option, bytes and a model of Python's JSON
  values. `text.dfy` holds `strip`, `lower`, `split`, `find`, `int()`,
  `str(int)` and UTF-8.

Modelling conventions:
- Python exceptions that the source lets escape are modelled as results:
  `Query.Raised`, `Option.None`, or a `Failed` outcome.
- Values that come from outside are parameters:
  - clocks, `uuid`, free ports;
  - socket replies;
  - Selenium answers and installer outcomes.
- Callbacks, drivers and factories are opaque handles. Calling or quitting one
  is recorded in a log field or a returned sequence.
- Objects whose fields the source updates are classes with `modifies` frames.
  Their methods are proved against the functions of the same module.

## Model

| member | source | states |
|---|---|---|
| `Upstream.Recv` | local_proxy_manager.py:208-209 | `recv(n)` returns at most n bytes and keeps the rest pending, with nothing lost or reordered; it raises on a fault or an exhausted script; a non-empty read makes progress |
| `Upstream.Greeting` | local_proxy_manager.py:200-206 | the greeting is version 5 with a correct method count; no-auth is offered first, and username/password is offered second exactly when both credentials are set |
| `Upstream.AuthRequest` | local_proxy_manager.py:223-236 | the RFC 1929 request exists exactly when both UTF-8 fields fit in 255 bytes; otherwise `struct.pack` raises |
| `Upstream.AuthRequestParses` | local_proxy_manager.py:223-236 | the request parses back to the UTF-8 username and password it was built from |
| `Upstream.ConnectRequest` | local_proxy_manager.py:245-252 | the CONNECT request exists exactly when the host fits in 255 bytes and the port in 16 bits |
| `Upstream.ConnectRequestParses` | local_proxy_manager.py:245-252 | the domain-name CONNECT request parses back to its host bytes and port |
| `Upstream.ConnectRequestError` | local_proxy_manager.py:245-252 | when the request cannot be built, the failure names the field: host too long, or else port out of range |
| `Upstream.ReplyReason` | local_proxy_manager.py:262-272 | every non-success reply code gets a non-empty reason text |
| `Upstream.ReplyReasonInjective` | local_proxy_manager.py:262-272 | two different reply codes never get the same reason text |
| `Upstream.SkipBoundAddress` | local_proxy_manager.py:277-284 | an unknown address type reads nothing more |
| `Upstream.SkipConsumesBoundAddress` | local_proxy_manager.py:277-284 | when the bound address has arrived, skipping consumes exactly its size (IPv4, domain with length byte, or IPv6 plus port), and the rest stays pending |
| `Upstream.Socks5` | local_proxy_manager.py:191-292 | a SOCKS5 exchange dials the upstream and sends the greeting first |
| `Upstream.SocksConnect` | local_proxy_manager.py:245-284 | the CONNECT step only appends to what was sent; a tunnel means the request was built and sent exactly once |
| `Upstream.HttpRequest` | local_proxy_manager.py:302-312 | the HTTP CONNECT request starts with the request line and Host header and ends with a blank line |
| `Upstream.BasicTokenDecodes` | local_proxy_manager.py:306-309 | the Basic token decodes from base64 and UTF-8 back to `user:password` |
| `Upstream.HttpRequestCredentials` | local_proxy_manager.py:302-312 | `Proxy-Authorization` is added exactly when both credentials are set, with the Basic token |
| `Upstream.ReadHead` | local_proxy_manager.py:317-322 | the read loop only extends the bytes already received |
| `Upstream.Socks5Handshake` | local_proxy_manager.py:191-243 | the imperative SOCKS5 branch computes the specified outcome: bytes sent, result and unread input |
| `Upstream.SocksConnectStep` | local_proxy_manager.py:245-292 | the imperative CONNECT/reply/bound-address steps compute the specified outcome |
| `Upstream.HttpTunnel` | local_proxy_manager.py:295-335 | the imperative HTTP CONNECT branch, with its read loop, computes the specified outcome |
| `Upstream.ConnectThroughProxy` | local_proxy_manager.py:186-345 | `_connect_through_proxy` as a whole computes the specified negotiation for every protocol and reachability |
| `Upstream.OnlyKnownProtocolsTunnel` | local_proxy_manager.py:289-292 | only a reachable socks5/http/https upstream can tunnel; SOCKS4 always fails before sending; any other protocol fails without dialing |
| `Upstream.GreetingSentFirst` | local_proxy_manager.py:200-206 | in every SOCKS5 negotiation the greeting is a prefix of what is sent |
| `Upstream.MethodReplyHandling` | local_proxy_manager.py:208-243 | every case of the method reply: short or wrong version fails, 0xFF fails, username/password without credentials fails, and any other method goes straight to CONNECT |
| `Upstream.AuthReplyHandling` | local_proxy_manager.py:223-243 | after the auth request, a non-zero status fails and a zero status goes on to CONNECT |
| `Upstream.ConnectReplyHandling` | local_proxy_manager.py:255-284 | the CONNECT reply: fewer than 4 bytes fails, a non-zero code fails with its reason, and success skips the bound address and tunnels |
| `Upstream.Utf8Contains` | local_proxy_manager.py:317-322 | a substring of the text stays a substring of its UTF-8 encoding (the header terminator test on bytes) |
| `Upstream.ReadHeadOneChunk` | local_proxy_manager.py:317-322 | a first chunk that holds the terminator ends the read loop with that chunk |
| `Upstream.HttpStatusDecides` | local_proxy_manager.py:324-335 | for a head that arrives in one chunk of at most 1024 bytes: the HTTP branch tunnels exactly when the status line contains `200`; it sends exactly the request and leaves later input unread |
| `Upstream.ReadHeadChunks` | local_proxy_manager.py:317-322 | a head sent as several non-empty chunks of at most 1024 bytes, the blank line completed only by the last, is read one `recv(1024)` per chunk and joined, and what follows stays unread |
| `Upstream.HttpStatusDecidesChunked` | local_proxy_manager.py:317-335 | however the head is split over `recv(1024)` calls, the branch tunnels exactly when the reply's first line contains `200`; it sends exactly the request and leaves later input unread |
| `Upstream.HttpStatusDecidesAnyChunks` | local_proxy_manager.py:317-335 | for every script: a read that raises fails the branch; otherwise it tunnels exactly when the first line of the decoded head the loop collected contains `200`, and leaves unread what the loop did not read |
| `Base64.CharIndexOfIndexChar` | local_proxy_manager.py:308 | each base64 digit maps back to its 6-bit value |
| `Base64.Encode` | local_proxy_manager.py:308 | `b64encode` gives 4 characters per started 3-byte group, all from the alphabet or `=` |
| `Base64.DecodeEncode` | local_proxy_manager.py:308 | decoding undoes encoding for every byte string |
| `Text.Utf8DecodeEncode` | local_proxy_manager.py:324 | `decode('utf-8', errors='ignore')` undoes `encode()` for every string |
| `Text.ParseIntToString` | local_proxy_manager.py:85-86 | `int(str(i))` gives back `i` for every integer |
| `Text.SplitCount` | local_proxy_manager.py:85 | `split(':')` gives one more part than there are colons |
| `LocalProxy.ProxyUrlScheme` | local_proxy_manager.py:176-184 | the text before `://` in the built URL is the protocol |
| `LocalProxy.ProxyUrlPort` | local_proxy_manager.py:176-184 | the URL ends in `:` and the port's digits, which parse back to the port |
| `LocalProxy.ProxyUrlCredentials` | local_proxy_manager.py:176-184 | the URL holds `@` exactly when both username and password are set |
| `LocalProxy.DictOfKeys` | local_proxy_manager.py:136 | the dict comprehension over the headers has exactly the received names |
| `LocalProxy.DictOfLast` | local_proxy_manager.py:136 | each name keeps the value of its last occurrence |
| `LocalProxy.ForwardedRequestHeaders` | local_proxy_manager.py:136-137 | `Proxy-Connection` is never forwarded |
| `LocalProxy.ForwardedRequestHeadersSpec` | local_proxy_manager.py:136-137 | every other received name is forwarded, with its last value, and no other name is |
| `LocalProxy.LowerCaseProxyConnectionKept` | local_proxy_manager.py:137 | the pop is case-sensitive: a lower-case `proxy-connection` is forwarded |
| `LocalProxy.ForwardedResponseHeaders` | local_proxy_manager.py:159-162 | the response headers passed back are exactly those not named transfer-encoding or content-encoding (any case) |
| `LocalProxy.ResponseHeadersInOrder` | local_proxy_manager.py:159-162 | filtering keeps the upstream order |
| `LocalProxy.ParseTarget` | local_proxy_manager.py:85-86 | a parsed host has no colon |
| `LocalProxy.ParseTargetSpec` | local_proxy_manager.py:85-86 | a target parses only with exactly one colon; the host is the text before it and the port is `int()` of the rest |
| `LocalProxy.ParseTargetRoundTrip` | local_proxy_manager.py:85-86 | `host:port` parses back to its host and port |
| `LocalProxy.HandleConnect` | local_proxy_manager.py:82-111 | the relay answers 200 exactly when the target parses and the upstream negotiation tunnels; a malformed target is an error reply |
| `LocalProxy.BracketedTargetRefused` | local_proxy_manager.py:85 | a target with two colons (a bracketed IPv6 address) is refused |
| `LocalProxy.LoopbackUrl` | local_proxy_manager.py:409-411 | the relay URL starts with `http://127.0.0.1:` |
| `LocalProxy.LoopbackUrlPort` | local_proxy_manager.py:409-411 | the port read back from the relay URL is the port it was built from |
| `LocalProxy.LocalProxyServer.constructor` | local_proxy_manager.py:11-16 | the server keeps the remote proxy; it uses the requested port unless that is missing or 0, and then a free one; it is not running |
| `LocalProxy.LocalProxyServer.Start` | local_proxy_manager.py:26-45 | a running server is left alone; otherwise a thread is started and the server runs when it binds; the port is returned |
| `LocalProxy.LocalProxyServer.Stop` | local_proxy_manager.py:391-407 | after stop nothing runs, listens or holds a thread |
| `LocalProxy.LocalProxyServer.GetLocalProxyUrl` | local_proxy_manager.py:409-411 | the URL is the loopback URL of the server's port |
| `LocalProxy.StoppedOneMore` | local_proxy_manager.py:439-442 | logging the relay of the next key in the snapshot extends the stopped log by exactly that relay |
| `LocalProxy.LocalProxyManager.constructor` | local_proxy_manager.py:417-418 | the manager starts with no relays |
| `LocalProxy.LocalProxyManager.StopLocalProxy` | local_proxy_manager.py:433-437 | an account's relay is stopped and forgotten; an account without one changes nothing |
| `LocalProxy.LocalProxyManager.CreateLocalProxy` | local_proxy_manager.py:420-431 | an existing relay of the account is stopped first; the new relay is stored, the account moves to the end of the registration order, and its loopback URL is returned |
| `LocalProxy.LocalProxyManager.StopAll` | local_proxy_manager.py:439-442 | every relay is stopped, in registration order, and none remains |
| `LocalProxy.LocalProxyManager.StopFirst` | local_proxy_manager.py:441-442 | one turn of the loop stops the oldest registered relay, logs it and leaves the other relays as they were |
| `LocalProxy.LocalProxyManager.Register` | local_proxy_manager.py:429 | the new relay is stored under the account and the account is registered last |
| `LocalProxy.LocalProxyManager.GetLocalProxy` | local_proxy_manager.py:444-448 | the URL exists exactly when the account has a relay, and it is that relay's URL |
| `ProxyCatalog.SplitOnce` | src/core/proxy_manager.py:57-58 | `split('://', 1)` splits exactly when the separator occurs, at its first occurrence, and the parts rejoin to the input |
| `ProxyCatalog.ParseFields` | src/core/proxy_manager.py:63-84 | a parsed proxy keeps the protocol and has a colon-free host; username and password are both present or both absent |
| `ProxyCatalog.ParseFieldsPort` | src/core/proxy_manager.py:63-84 | the text parses exactly when it has two or four `:`-separated fields and `int()` accepts the second; the host is the first field and the port is `int()` of the second, so a non-integer port gives None |
| `ProxyCatalog.ParseProxyString` | src/core/proxy_manager.py:55-86 | a string without `://` is parsed as http; otherwise the scheme is the text before the first `://` |
| `ProxyCatalog.ParseFieldCount` | src/core/proxy_manager.py:63-84 | only 2 or 4 colon-separated fields parse; 2 fields have no credentials and 4 have them |
| `ProxyCatalog.SchemeSplit` | src/core/proxy_manager.py:57-63 | `protocol://rest` is parsed field by field with that protocol |
| `ProxyCatalog.FourFieldsParse` | src/core/proxy_manager.py:74-82 | `host:port:user:pass` parses to exactly those fields |
| `ProxyCatalog.ParseFullFormat` | src/core/proxy_manager.py:55-86 | `protocol://host:port:user:pass` parses to exactly those fields |
| `ProxyCatalog.TwoFieldsParse` | src/core/proxy_manager.py:65-73 | `host:port` parses to an http proxy without credentials |
| `ProxyCatalog.ParseShortFormat` | src/core/proxy_manager.py:55-86 | a bare `host:port` parses to an http proxy without credentials |
| `ProxyCatalog.RemoveEachDecreasing` | src/core/proxy_manager.py:112-117 | popping strictly decreasing indices removes exactly those positions, and counts those in range |
| `ProxyCatalog.SortDesc` | src/core/proxy_manager.py:114 | `sorted(indices, reverse=True)` is non-increasing and a permutation of the input |
| `ProxyCatalog.SortDistinct` | src/core/proxy_manager.py:114 | distinct indices sort strictly decreasing |
| `ProxyCatalog.SortKeepsIndices` | src/core/proxy_manager.py:114 | sorting keeps the set of indices |
| `ProxyCatalog.FirstSuccess` | src/core/proxy_manager.py:142-158 | the first test URL that answers 200 is found, or none does |
| `ProxyCatalog.Checked` | src/core/proxy_manager.py:162-177 | the checked record keeps the address, records the check time, is alive exactly on success, and has a response time exactly on success |
| `ProxyCatalog.CheckProxy` | src/core/proxy_manager.py:119-177 | the loop stops at the first 200 answer; the result is the checked record of that outcome and is alive or dead |
| `ProxyCatalog.ProxyManager.constructor` | src/core/proxy_manager.py:11-21 | the catalog holds the loaded proxies |
| `ProxyCatalog.ProxyManager.AddProxy` | src/core/proxy_manager.py:27-53 | a proxy is appended, with fresh fields, exactly when the string parses and no listed proxy has the same protocol, host, port, username and password |
| `ProxyCatalog.ProxyManager.RemoveProxy` | src/core/proxy_manager.py:102-110 | an index in range is popped; any other index changes nothing |
| `ProxyCatalog.ProxyManager.RemoveProxies` | src/core/proxy_manager.py:112-117 | the indices are popped from the largest down, and the count is the number popped |
| `ProxyCatalog.ProxyManager.RemoveAtEach` | src/core/proxy_manager.py:113-117 | the loop calls `remove_proxy` at each index in turn and counts the calls that removed something |
| `ProxyCatalog.ProxyManager.ClearDeadProxies` | src/core/proxy_manager.py:217-221 | exactly the dead proxies go, in order, and the count is their number |
| `ProxyCatalog.ProxyManager.GetProxyByIndex` | src/core/proxy_manager.py:212-215 | the proxy at an index in range, none otherwise |
| `ProxyCatalog.ProxyManager.GetRandomAliveProxy` | src/core/proxy_manager.py:202-207 | the choice is an alive listed proxy; there is none exactly when no proxy is alive |
| `ProxyCatalog.RemoveProxiesDistinct` | src/core/proxy_manager.py:112-117 | for distinct indices, removal deletes exactly the listed positions |
| `ProxyCatalog.ClearDeadAccounts` | src/core/proxy_manager.py:217-221 | kept and removed proxies add up to the list; the kept ones are exactly the proxies that are not dead |
| `SessionPool.Seconds` | src/core/browser_pool.py:76 | `timedelta.seconds` lies in 0..86399 |
| `SessionPool.SecondsWrapDaily` | src/core/browser_pool.py:76 | `.seconds` ignores whole days |
| `SessionPool.SweepGateExamples` | src/core/browser_pool.py:76-77 | a day and 10 seconds passes the gate as "under 30s", and a clock that went back one microsecond already sweeps |
| `SessionPool.IdleKeys` | src/core/browser_pool.py:82-86 | the idle ids are exactly the pooled ids last used before the threshold, in order, without duplicates |
| `SessionPool.RemoveKeys` | src/core/browser_pool.py:88-89 | the order after the pops holds exactly the ids not popped |
| `SessionPool.RemoveKeysPreservesOrder` | src/core/browser_pool.py:88-89 | popping keeps the insertion order of the rest |
| `SessionPool.PopAll` | src/core/browser_pool.py:88-93 | the pop loop removes exactly the given ids and quits their drivers in that order |
| `SessionPool.OldestIndex` | src/core/browser_pool.py:100-103 | `min` by creation time: no entry is older, and ties go to the earliest inserted |
| `SessionPool.BrowserPool.constructor` | src/core/browser_pool.py:9-15 | an empty pool with the given size, timeout and sweep time |
| `SessionPool.BrowserPool.SweepIdle` | src/core/browser_pool.py:79-93 | the sweep records the time, pops every idle entry and quits its driver |
| `SessionPool.BrowserPool.CleanupIdle` | src/core/browser_pool.py:71-93 | under 30 `.seconds` since the last sweep nothing changes; otherwise the sweep runs; the pool never grows |
| `SessionPool.BrowserPool.CloseOldest` | src/core/browser_pool.py:95-109 | an empty pool is left alone; otherwise the oldest entry is popped and its driver quit |
| `SessionPool.BrowserPool.Store` | src/core/browser_pool.py:25-30 | the entry is stored under the id, appended to the order when new, and the size grows by one exactly for a new id |
| `SessionPool.BrowserPool.Acquire` | src/core/browser_pool.py:17-30 | the whole new pool, order and quit log: the sweep when the gate lets it run, then the eviction of the oldest when a new id finds the pool full, then the store; the entry is stored and the pool stays within its bound |
| `SessionPool.Swept` | src/core/browser_pool.py:79-93 | a sweep keeps the insertion order an exact list of the pooled ids |
| `SessionPool.EvictedOldest` | src/core/browser_pool.py:95-109 | an eviction keeps the insertion order an exact list of the pooled ids |
| `SessionPool.Admitted` | src/core/browser_pool.py:22-30 | eviction and store keep the insertion order an exact list of the pooled ids |
| `SessionPool.AdmittedSize` | src/core/browser_pool.py:22-30 | a pool within a bound of at least 1 stays within it: a new id finding the pool full takes the evicted entry's place |
| `SessionPool.BrowserPool.Admit` | src/core/browser_pool.py:22-30 | eviction, if needed, then the store: the new state is the specified admission, and the pool stays within its bound |
| `SessionPool.BrowserPool.Release` | src/core/browser_pool.py:32-38 | a pooled driver is popped and returned; otherwise none is returned and nothing changes |
| `SessionPool.BrowserPool.Get` | src/core/browser_pool.py:40-49 | a pooled driver is returned and its last-used time refreshed; otherwise nothing changes |
| `SessionPool.BrowserPool.Exists` | src/core/browser_pool.py:51-54 | true exactly for a pooled id |
| `SessionPool.BrowserPool.GetAllIds` | src/core/browser_pool.py:56-59 | exactly the pooled ids, without duplicates |
| `SessionPool.BrowserPool.GetPoolSize` | src/core/browser_pool.py:61-64 | the number of pooled entries |
| `SessionPool.BrowserPool.IsFull` | src/core/browser_pool.py:66-69 | full exactly when the size reaches the maximum |
| `SessionPool.BrowserPool.CloseAll` | src/core/browser_pool.py:111-119 | every driver is quit, in insertion order, and the pool is emptied |
| `SessionPool.BrowserPool.GetStats` | src/core/browser_pool.py:121-133 | the size, the maximum, and as idle count exactly the number of pooled entries whose `(now - last_used).seconds` exceeds 60 |
| `SessionPool.CountStaleIsCard` | src/core/browser_pool.py:129-132 | over a duplicate-free list of ids, the idle count is the number of distinct idle ids |
| `SessionPool.CountStaleOfPool` | src/core/browser_pool.py:129-132 | over the pool's insertion order, the idle count is the number of idle pooled entries |
| `SessionPool.FullPoolEvictsOldest` | src/core/browser_pool.py:95-109 | the evicted entry is the oldest; the others remain and the size drops by one |
| `SessionPool.SweepKeepsRecent` | src/core/browser_pool.py:82-93 | after a sweep exactly the recently used entries remain, in their order |
| `AccountStore.Locate` | src/core/account_manager.py:281-286 | the first account with the id is found; an account without an `id` key on the way raises `KeyError`; earlier accounts have another id |
| `AccountStore.FindAccount` | src/core/account_manager.py:281-286 | the search loop finds what `Locate` specifies |
| `AccountStore.OverwriteSpec` | src/core/account_manager.py:146-148 | `update_account` sets only keys the account has, each to its last given value |
| `AccountStore.ApplyKwargs` | src/core/account_manager.py:146-148 | the kwargs loop computes that overwrite |
| `AccountStore.UpdateAccount` | src/core/account_manager.py:140-157 | an update succeeds exactly when an account with the id is found, and replaces only that account; the `KeyError` of an account without `id` reads as failure |
| `AccountStore.UpdateKeepsShape` | src/core/account_manager.py:146-148 | an update adds no keys, and keeps the id unless `id` itself is passed |
| `AccountStore.LastValueUntouched` | src/core/account_manager.py:146-148 | a key no kwarg names keeps its value |
| `AccountStore.RemoveAccount` | src/core/account_manager.py:256-271 | the first account with the id is popped when found and, if profiles are deleted, its `profile_path` exists and is not null, a list or a dict (those make `os.path.exists` raise, which answers False); otherwise nothing changes |
| `AccountStore.NullProfilePathKept` | src/core/account_manager.py:261-271 | an account whose `profile_path` is null is not removed when profiles are deleted, and nothing is counted |
| `AccountStore.RemoveAccounts` | src/core/account_manager.py:273-279 | the loop removes each id in turn and counts the removals |
| `AccountStore.UniqueIdsRemoveAt` | src/core/account_manager.py:256-271 | removing an account keeps ids unique and drops only that id |
| `AccountStore.RemoveEachUnique` | src/core/account_manager.py:273-279 | with unique ids and, when profiles are deleted, a usable `profile_path` on every account, no removed id remains and nothing new appears |
| `AccountStore.Searched` | src/core/account_manager.py:292-300 | the search completes exactly when no account makes the match raise |
| `AccountStore.SearchAccounts` | src/core/account_manager.py:292-300 | the loop computes the search with the lower-cased query |
| `AccountStore.SearchedSpec` | src/core/account_manager.py:292-300 | a completed search returns exactly the matching accounts, in list order and as often as each occurs (the in-order filter `KeepMatching`) |
| `AccountStore.NoTextNeverMatches` | src/core/account_manager.py:295-299 | an account with neither email nor name never matches |
| `AccountStore.MatchIgnoresCase` | src/core/account_manager.py:295-299 | matching ignores upper case in the stored email |
| `AccountStore.Where` | src/core/account_manager.py:306-311 | filtering completes exactly when every account has the key |
| `AccountStore.WhereSpec` | src/core/account_manager.py:306-311 | a completed filter keeps exactly the accounts with that value, in order |
| `AccountStore.FilterAccounts` | src/core/account_manager.py:302-312 | without type or status every account is returned |
| `AccountStore.FilterAccountsSpec` | src/core/account_manager.py:302-312 | the result is exactly the accounts with the given type and the given status |
| `AccountStore.CountWhereKey` | src/core/account_manager.py:316-325 | counting completes exactly when every account has the key, and counts at most all |
| `AccountStore.AccountStats` | src/core/account_manager.py:314-327 | stats complete exactly when every account has type and status; total is the count and not-logged-in is its complement |
| `AccountStore.TypesPartition` | src/core/account_manager.py:314-327 | Google and Outlook counts together never exceed the total |
| `CoreAccounts.SanitizeProfileFolder` | src/core/account_manager.py:36-42 | the folder name is non-empty, only `[a-z0-9_-]`, has no doubled or edge underscores |
| `CoreAccounts.SanitizeNothing` | src/core/account_manager.py:37-42 | no email, or an empty one, gives `unknown` |
| `CoreAccounts.SanitizeSeparator` | src/core/account_manager.py:36-42 | `a@b` becomes `a_at_b` and `a.b` becomes `a_b` for plain parts |
| `CoreAccounts.WithDefaults` | src/core/account_manager.py:21-25 | a loaded account gains `browser` (chrome) and `notes` (empty) only when missing |
| `CoreAccounts.LoadDefaults` | src/core/account_manager.py:21-25 | every loaded account gets those defaults, in order |
| `CoreAccounts.CreateAccount` | src/core/account_manager.py:97-125 | a new account has exactly the thirteen keys of the source: the id, the given type and profile path, email and name None, `not_logged_in`, no creation or open time, chrome, empty notes, and the given `use_proxy`, proxy mode and proxy id |
| `CoreAccounts.CreatedAccountUnseen` | src/core/account_manager.py:97-125 | a fresh account matches no search and counts as one not-logged-in account of its type |
| `CoreAccounts.AccountManager.constructor` | src/core/account_manager.py:12-25 | the manager holds the loaded accounts with defaults |
| `CoreAccounts.AccountManager.AddAccount` | src/core/account_manager.py:127-138 | the account is appended with `created_at` set |
| `CoreAccounts.AccountManager.UpdateAccount` | src/core/account_manager.py:140-157 | succeeds exactly when the id is found, and overwrites only that account |
| `CoreAccounts.AccountManager.RemoveAccount` | src/core/account_manager.py:256-271 | removes the first account with the id when it is found and, if profiles are deleted, its `profile_path` is present and accepted by `os.path.exists`; otherwise returns False and changes nothing |
| `CoreAccounts.AccountManager.RemoveAccounts` | src/core/account_manager.py:273-279 | removes the ids in turn and returns the number removed |
| `CoreAccounts.AccountManager.GetAccount` | src/core/account_manager.py:281-286 | the account with the id, none when absent, and `KeyError` for an account without `id` on the way |
| `CoreAccounts.AccountManager.SearchAccounts` | src/core/account_manager.py:292-300 | the search of the stored accounts with the lower-cased query |
| `CoreAccounts.AccountManager.FilterAccounts` | src/core/account_manager.py:302-312 | exactly the stored accounts with the given type and status |
| `CoreAccounts.AccountManager.GetAccountStats` | src/core/account_manager.py:314-327 | the stats of the stored accounts; not-logged-in is the complement |
| `LegacyAccounts.CreateAccount` | account_manager.py:27-54 | a new account has exactly the twelve keys of the source (no `browser`): the id, the given type and profile path, email and name None, `not_logged_in`, no creation or open time, empty notes, and the given `use_proxy`, proxy mode and proxy id |
| `LegacyAccounts.CreatedAccountUnseen` | account_manager.py:27-54 | a fresh account matches no search and counts as one not-logged-in account of its type |
| `LegacyAccounts.AccountManager.constructor` | account_manager.py:9-20 | the manager holds the loaded accounts unchanged |
| `LegacyAccounts.AccountManager.AddAccount` | account_manager.py:56-66 | the account is appended with `created_at` set |
| `LegacyAccounts.AccountManager.UpdateAccount` | account_manager.py:68-81 | succeeds exactly when the id is found, and overwrites only that account |
| `LegacyAccounts.AccountManager.RemoveAccount` | account_manager.py:83-98 | removes the first account with the id when it is found and, if profiles are deleted, its `profile_path` is present and accepted by `os.path.exists`; otherwise returns False and changes nothing |
| `LegacyAccounts.AccountManager.RemoveAccounts` | account_manager.py:100-106 | removes the ids in turn and returns the number removed |
| `LegacyAccounts.AccountManager.GetAccount` | account_manager.py:108-113 | the account with the id, none when absent, and `KeyError` for an account without `id` on the way |
| `LegacyAccounts.AccountManager.SearchAccounts` | account_manager.py:119-127 | the search of the stored accounts with the lower-cased query |
| `LegacyAccounts.AccountManager.FilterAccounts` | account_manager.py:129-139 | exactly the stored accounts with the given type and status |
| `LegacyAccounts.AccountManager.GetAccountStats` | account_manager.py:141-154 | the stats of the stored accounts; not-logged-in is the complement |
| `Groups.DefaultGroups` | src/core/group_manager.py:27-35 | a first start creates only the `all` group, with no members |
| `Groups.NewGroup` | src/core/group_manager.py:49-60 | a new group has the id, name and time, no members, and the given colour or the default |
| `Groups.FirstGroup` | src/core/group_manager.py:62-67 | the first group with the id, or none when no group has it |
| `Groups.FindGroup` | src/core/group_manager.py:62-67 | the search loop finds that group |
| `Groups.EditedKeepsIdentity` | src/core/group_manager.py:73-81 | an update never changes the id or creation time, and keys other than the editable ones change nothing |
| `Groups.WithoutGroup` | src/core/group_manager.py:83-89 | deleting keeps exactly the groups with another id |
| `Groups.WithoutAbsentGroup` | src/core/group_manager.py:83-89 | deleting an absent id leaves the list as it was |
| `Groups.GroupsFor` | src/core/group_manager.py:114-116 | exactly the groups that contain the account |
| `Groups.CountWithAccounts` | src/core/group_manager.py:118-123 | the number of groups with members; zero exactly when every group is empty |
| `Groups.GroupsForCounted` | src/core/group_manager.py:114-123 | an account is in no more groups than there are groups with members |
| `Groups.GroupManager.constructor` | src/core/group_manager.py:10-36 | the loaded groups, or the default groups when there is no file |
| `Groups.GroupManager.CreateGroup` | src/core/group_manager.py:49-60 | the new group is appended and returned |
| `Groups.GroupManager.GetGroup` | src/core/group_manager.py:62-67 | the first group with the id, or none |
| `Groups.GroupManager.UpdateGroup` | src/core/group_manager.py:73-81 | an unknown id fails and changes nothing; a known one is edited and the result is the save's |
| `Groups.GroupManager.DeleteGroup` | src/core/group_manager.py:83-89 | `all` cannot be deleted; any other id is filtered out and the result is the save's |
| `Groups.GroupManager.AddAccountToGroup` | src/core/group_manager.py:91-97 | the account is appended when the group exists and lacks it; otherwise the call fails and nothing changes |
| `Groups.GroupManager.RemoveAccountFromGroup` | src/core/group_manager.py:99-105 | the account is removed when the group exists and has it; otherwise the call fails and nothing changes |
| `Groups.GroupManager.GetAccountsInGroup` | src/core/group_manager.py:107-112 | the group's members, or empty for an unknown group |
| `Groups.GroupManager.GetGroupStats` | src/core/group_manager.py:118-123 | the number of groups, and of groups with members |
| `Groups.AddKeepsMembersDistinct` | src/core/group_manager.py:91-97 | adding an absent account keeps the members free of duplicates |
| `Groups.RemoveLeavesOthers` | src/core/group_manager.py:99-105 | removing a member drops exactly that account |
| `SimpleGroups.GroupIdAt` | src/core/simple_group.py:28 | the id is `group_` followed by the timestamp |
| `SimpleGroups.ContainingIds` | src/core/simple_group.py:63-64 | exactly the ids of groups that contain the account, in order, without duplicates |
| `SimpleGroups.ValuesInOrder` | src/core/simple_group.py:57-58 | the groups in insertion order |
| `SimpleGroups.StoreKeepsOrder` | src/core/simple_group.py:27-35 | storing a key keeps the insertion order an exact list of the keys |
| `SimpleGroups.DeleteKeepsOrder` | src/core/simple_group.py:42-45 | deleting a key keeps the insertion order an exact list of the keys |
| `SimpleGroups.SimpleGroupManager.constructor` | src/core/simple_group.py:9-21 | the manager holds the loaded groups and their order |
| `SimpleGroups.SimpleGroupManager.CreateGroup` | src/core/simple_group.py:27-35 | stores an empty group under `group_<stamp>` and returns that id |
| `SimpleGroups.SimpleGroupManager.RenameGroup` | src/core/simple_group.py:37-40 | renames a known group; an unknown id changes nothing |
| `SimpleGroups.SimpleGroupManager.DeleteGroup` | src/core/simple_group.py:42-45 | the id is gone afterwards; everything else is kept |
| `SimpleGroups.SimpleGroupManager.AddAccountToGroup` | src/core/simple_group.py:47-50 | appends the account to a known group unless it is there |
| `SimpleGroups.SimpleGroupManager.RemoveAccountFromGroup` | src/core/simple_group.py:52-55 | removes the account from a known group that has it; otherwise nothing changes |
| `SimpleGroups.SimpleGroupManager.GetAllGroups` | src/core/simple_group.py:57-58 | one entry per group, and exactly the stored groups |
| `SimpleGroups.SimpleGroupManager.GetGroup` | src/core/simple_group.py:60-61 | the group with the id, or none |
| `SimpleGroups.SimpleGroupManager.GetAccountGroups` | src/core/simple_group.py:63-64 | exactly the ids of the groups that contain the account, without duplicates |
| `SimpleGroups.DistinctSize` | src/core/simple_group.py:57-58 | the insertion order has one entry per group |
| `AppState.DefaultState` | src/utils/state_manager.py:7-30 | the default state has exactly the sixteen fields, with the documented defaults |
| `AppState.SetField` | src/utils/state_manager.py:55-56 | a known field takes the value, an unknown name changes nothing, and other fields keep theirs |
| `AppState.SetFields` | src/utils/state_manager.py:66-68 | no field is added, fields not mentioned keep their values, and each known field holds the value of its last update in the batch |
| `AppState.LastUpdateWins` | src/utils/state_manager.py:66-68 | if the first update of a batch is stored and the rest of the batch leaves its last updates in place and other fields untouched, then every known field holds the value of its last update in the whole batch |
| `AppState.Notified` | src/utils/state_manager.py:85-91 | every observer of the field is called with the value, in order |
| `AppState.StateManager.constructor` | src/utils/state_manager.py:34-39 | default state, no observers, no history |
| `AppState.StateManager.GetField` | src/utils/state_manager.py:45-47 | the field's value, or None for an unknown name |
| `AppState.StateManager.UpdateState` | src/utils/state_manager.py:49-58 | records a snapshot, sets the field, and notifies its observers |
| `AppState.StateManager.UpdateMultiple` | src/utils/state_manager.py:60-71 | one snapshot, every field in order, then every notification |
| `AppState.StateManager.Subscribe` | src/utils/state_manager.py:73-78 | the callback is added to the field's list unless it is there |
| `AppState.StateManager.Unsubscribe` | src/utils/state_manager.py:80-83 | a subscribed callback is removed; otherwise nothing changes |
| `AppState.StateManager.ResetState` | src/utils/state_manager.py:93-96 | defaults back and history cleared; observers kept |
| `AppState.StateManager.Undo` | src/utils/state_manager.py:98-103 | succeeds exactly when there is history; restores and pops the latest snapshot; the store stays valid (every state and snapshot has exactly the sixteen fields, at most 50 snapshots) |
| `AppState.StateManager.GetHistorySize` | src/utils/state_manager.py:105-106 | the number of snapshots |
| `AppState.UpdateThenUndo` | src/utils/state_manager.py:49-103 | an update followed by undo restores the earlier state |
| `AppState.RecordedDropsOldest` | src/utils/state_manager.py:51-53 | a full history drops exactly its oldest snapshot |
| `AppState.SubscribeIdempotent` | src/utils/state_manager.py:73-78 | subscribing twice is subscribing once, and keeps the list free of duplicates |
| `Common.CappedAppend` | src/utils/event_bus.py:40-42 | the entry is appended; beyond the cap the oldest goes; the new entry is last (the same rule, with cap 50, records state snapshots at src/utils/state_manager.py:51-53) |
| `Events.Deliveries` | src/utils/event_bus.py:44-49 | every subscriber of the name is called with the event, in order |
| `Events.Named` | src/utils/event_bus.py:60-61 | exactly the events with that name |
| `Events.NamedAppend` | src/utils/event_bus.py:60-61 | filtering keeps chronological order |
| `Events.History` | src/utils/event_bus.py:57-66 | only recorded events, all with the asked name when one is given |
| `Events.HistoryIsRecentSuffix` | src/utils/event_bus.py:63-64 | a positive limit gives the last `limit` selected events, or all of them when fewer |
| `Events.PublishedIsLatest` | src/utils/event_bus.py:37-66 | the event just published is the latest one the history reports for its name |
| `Events.LatestOfName` | src/utils/event_bus.py:56-66 | when the last event of a name in the history is `e`, `get_history` for that name with a positive limit ends with `e` |
| `Events.NegativeLimitDropsOldest` | src/utils/event_bus.py:63-64 | a negative limit drops that many events from the front |
| `Events.EventBus.constructor` | src/utils/event_bus.py:20-23 | no subscribers, no history |
| `Events.EventBus.Subscribe` | src/utils/event_bus.py:25-30 | the callback is added to the name's list unless it is there; lists stay duplicate-free |
| `Events.EventBus.Unsubscribe` | src/utils/event_bus.py:32-35 | a subscribed callback is removed entirely; otherwise nothing changes |
| `Events.EventBus.Publish` | src/utils/event_bus.py:37-49 | the event is recorded in the capped history and delivered to every subscriber |
| `Events.EventBus.ClearSubscribers` | src/utils/event_bus.py:51-55 | a non-empty name gets an empty list; no name clears every list |
| `Events.EventBus.GetHistory` | src/utils/event_bus.py:57-66 | only recorded events, all with the asked name when one is given |
| `Container.Registration` | src/utils/dependency_injection.py:12-19 | the service becomes registered, others keep their status; instances go to services and factories to factories |
| `Container.Resolved` | src/utils/dependency_injection.py:21-34 | services are tried first, then factories, caching for singletons; not registered raises |
| `Container.InstanceResolvesToItself` | src/utils/dependency_injection.py:12-34 | a registered instance resolves to itself and nothing is built |
| `Container.SingletonBuiltOnce` | src/utils/dependency_injection.py:21-34 | a singleton factory is called on the first resolve only |
| `Container.TransientBuiltEveryTime` | src/utils/dependency_injection.py:21-34 | a non-singleton factory is called on every resolve and nothing is cached |
| `Container.ServiceShadowsFactory` | src/utils/dependency_injection.py:21-34 | a stored instance shadows a factory registered later |
| `Container.ClearedResolvesNothing` | src/utils/dependency_injection.py:39-43 | after clear nothing is registered |
| `Container.ServiceContainer.constructor` | src/utils/dependency_injection.py:6-10 | three empty tables |
| `Container.ServiceContainer.Register` | src/utils/dependency_injection.py:12-19 | the tables become their registration |
| `Container.ServiceContainer.Resolve` | src/utils/dependency_injection.py:21-34 | the answer and the new tables are the specified resolution |
| `Container.ServiceContainer.IsRegistered` | src/utils/dependency_injection.py:36-37 | registered exactly when in services or factories |
| `Container.ServiceContainer.Clear` | src/utils/dependency_injection.py:39-43 | all tables empty |
| `MemoryTools.LimitStringLength` | src/utils/memory_manager.py:83-87 | short text is unchanged; longer text is its first `max_length` characters followed by `...` |
| `MemoryTools.LimitIdempotent` | src/utils/memory_manager.py:83-87 | limiting twice is limiting once |
| `MemoryTools.Chunks` | src/utils/memory_manager.py:78-80 | a zero step raises; a negative step gives no chunks |
| `MemoryTools.FlattenChunks` | src/utils/memory_manager.py:78-80 | the chunks concatenate back to the list |
| `MemoryTools.ChunkSizes` | src/utils/memory_manager.py:78-80 | every chunk is non-empty and at most `chunk_size` long, and all but the last are exactly that |
| `MemoryTools.OptimizeList` | src/utils/memory_manager.py:78-80 | the generator loop yields exactly the specified chunks |
| `MemoryTools.ClearCache` | src/utils/memory_manager.py:68-75 | without `__dict__` nothing happens; otherwise exactly the `_cache_`/`_cached_` attributes go and the rest keep their values |
| `Browsers.NormalizeBrowserType` | src/core/browser_manager.py:343-345 | the browser is supported: the lower-cased given type when supported, otherwise chrome |
| `Browsers.NormalizeIgnoresCase` | src/core/browser_manager.py:343 | names that differ only in case give the same browser |
| `Browsers.LoginPage` | src/core/browser_manager.py:589-596 | Google and Outlook get their login pages; any other type raises |
| `Browsers.AnyKeyword` | src/core/browser_manager.py:901 | true exactly when some keyword occurs in the lower-cased domain |
| `Browsers.HasAuthCookies` | src/core/browser_manager.py:886-906 | true exactly when cookies could be read and one has a name, value and matching domain among the wanted names |
| `Browsers.Environment.constructor` | src/core/browser_manager.py:957 | the environment holds the given variables |
| `Browsers.InstallDriverWithCleanEnv` | src/core/browser_manager.py:957-972 | the installer sees no proxy variable and every other variable; afterwards the proxy variables are restored to their saved values, with the installer assumed not to change the environment |
| `Browsers.HideProxyVars` | src/core/browser_manager.py:962-967 | every proxy variable that is set is saved with its value and deleted; nothing else changes |
| `Browsers.RestoreVars` | src/core/browser_manager.py:969-972 | every saved variable is put back with its saved value; the others keep theirs |
| `Browsers.BrowserManager.constructor` | src/core/browser_manager.py:29-32 | no drivers, and a fresh relay manager |
| `Browsers.BrowserManager.CloseBrowser` | src/core/browser_manager.py:598-617 | the account's driver is quit and forgotten if it has one, and its relay is always stopped |
| `Browsers.BrowserManager.IsBrowserOpen` | src/core/browser_manager.py:651-660 | open exactly when the driver exists and answers; a driver that does not answer is forgotten |
| `Browsers.BrowserManager.GetDriver` | src/core/browser_manager.py:647-649 | the account's driver, or none |
| `Common.RemoveFirstOfDistinct` | src/utils/event_bus.py:35 | `list.remove` on a duplicate-free list removes the callback entirely and keeps the rest |
| `Common.AppendNew` | src/utils/event_bus.py:29-30 | the guarded append contains the new element, keeps the old ones, and keeps a list duplicate-free |
| `Common.Without` | src/core/browser_pool.py:36 | the insertion order after a pop holds exactly the other keys |

## Left out

- File persistence. Loading, saving, JSON errors and save failures are not modelled; a save result is a parameter where the source returns it.
- Profile directories. `_ensure_profile_path`, directory creation and deletion, and profile moves on add/update are not modelled.
- CoreAccounts.AccountManager.AddAccount: does not model `_ensure_profile_path` rewriting `profile_path`, because that touches the filesystem.
- CoreAccounts.AccountManager.UpdateAccount: does not model the profile-path move after an update, for the same reason.
- Encrypted import and export (`export_accounts_encrypted`, `import_accounts_encrypted`): cryptography and files are not modelled.
- Text.Lower: lower-cases only ASCII; Python's full Unicode case mapping is not modelled.
- Text.ParseInt: accepts only the ASCII digits `0`-`9`; the other Unicode decimal digits that Python's `int()` accepts (such as full-width digits) are not modelled.
- LocalProxy.LocalProxyManager: a registered relay is kept as a value (its remote proxy and port), not as the `LocalProxyServer` object, so `stop_local_proxy` does not call that object's `stop()`; the server's own `start` and `stop` are modelled on `LocalProxyServer`.
- AppState.SetField: `hasattr` is modelled as the sixteen dataclass fields; methods and other attributes of the dataclass are not.
- Callbacks. Callbacks that change the subscriber lists while a notification runs are not modelled, and neither is anything a callback does.
- Container.Resolved: a factory always produces its value (a parameter); a factory that raises, after which nothing is cached and the exception propagates out of `resolve`, is not modelled.
- Events.EventBus.GetHistory: returns a value; with neither a name nor a limit, `get_history` hands back the live history list itself (a filtered or sliced result is a new list), so a caller could change the history through it, and that aliasing is not modelled.
- Events.Event: the timestamp is a caller-supplied integer, not `datetime.now()`.
- Group records: a group dict with a missing key is not modelled; every group has its fields.
- Floating point. The pool's `utilization` and the proxy check's rounded response time are not modelled.
- Concurrency. Locks, the close-browser thread and the `ThreadPoolExecutor` of `check_all_proxies` are not modelled; `check_all_proxies` itself is left out.
- The proxy URL `check_proxy` hands to the request library is not modelled; each test request's answer is a parameter.
- Selenium and the operating system. Driver creation, stealth scripts, cookie files, page checks, login detection and email extraction are not modelled; driver answers are parameters.
- Browsers.HasAuthCookies: all cookie fields are strings; Selenium values of other types are not modelled.
- Browsers.InstallDriverWithCleanEnv: the installer is assumed not to change the environment; in the source only the saved proxy variables are restored, and anything else the installer sets or deletes stays that way.
- Container.Registration: the distinction between a class and a callable is the caller's choice of `Instance` or `Factory`.
- MemoryTools.OptimizeList: collects every chunk; the laziness of the generator is not modelled.
- MemoryTools.ClearCache: works on the attribute dictionary as a value, not on the object.
- Memory tools that need the runtime are not modelled: garbage collection, `psutil`, image resizing and weak references.
- `async_manager.py` is not part of this model.
- Relay sockets:
  - `_find_free_port` is a parameter;
  - the readiness poll and `sleep` in `start` are a parameter (`binds`);
  - the data forwarding between sockets is not modelled;
  - the `requests` calls of plain HTTP proxying are not modelled; only the header filters are.
- Upstream.Socks5Handshake, Upstream.SocksConnectStep, Upstream.HttpTunnel: `sock.sendall` always succeeds in the model; a failed send, which in the source raises into the `except` of `_connect_through_proxy` (local_proxy_manager.py:341) and fails the negotiation, is not modelled.
- The GUI and the configuration files are not part of this model.
