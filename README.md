# KeyZero scan engine in Dafny

KeyZero searches the Bitcoin private-key space for a key whose address is on a watch list
or has ever received funds. This project models the scanner object `Btcbf` of
`KeyZero.py` and proves properties of that model:

- the watch list `address.txt` and how `_load_addresses` filters it;
- the balance check `check_balance`, which asks three providers in a fixed order and falls
  back to the next one on a failed request, a non-200 status, an unreadable reply or a
  zero amount;
- the match test that `sequential_brute` and `random_brute` perform on each candidate;
- the worker-count prompt `num_of_cores`;
- the sequential scan `_sequential_offline_attack`: it resumes from `cache.txt`, or
  normalises the typed range `a-b` to `a-a-b`, writes it to the cache and reads it; it then
  submits every index of `[start_n, end_n)` to the pool in order;
- one tick of the status reporter `speed`, which rewrites the cache during a sequential
  scan.

The modules follow the pieces of the scanner:

| module | file | contents |
|---|---|---|
| `PyText` | `PyText.dfy` | the parts of Python the scanner relies on: `strip`, `split`, `join`, `insert`, `in` on strings, `isdigit`, `int()` and `str()` |
| `Progress` | `Progress.dfy` | the cache line `cursor-rangeStart-rangeEnd`: writing it, reading it back on resume, and the first-run path |
| `Oracle` | `Oracle.dfy` | the provider fallback of `check_balance`, with each provider's reply abstracted to what it amounts to |
| `WatchList` | `WatchList.dfy` | `_load_addresses` |
| `Cores` | `Cores.dfy` | the decision rule of `num_of_cores` |
| `Dispatch` | `Dispatch.dfy` | `range(start_n, end_n)` |
| `KeyZero` | `KeyZero.dfy` | the class `Btcbf`: its fields and methods |

Files are modelled by their contents. `cache.txt` is the string field `cacheFile`.
`address.txt` is an `Option<string>`, with `None` when the file does not exist. The worker
pool is the sequence `submitted` of the indices handed to it. Each provider's reply is a
`ProviderOutcome` parameter. Key derivation `Key().from_int(n).address` is a function
`deriveAddress` fixed at construction; it may fail. The address of a random key `Key()` is
a parameter. `cpu_count()` is the parameter `available`, and the typed texts are
parameters too.

Exceptions are modelled where the program lets them escape:

- Reading the range can raise `IndexError` or `ValueError`; these are the `PyError` of a
  `Result`.
- `check_balance` does not catch the `AttributeError` or `TypeError` raised by a provider
  reply of the wrong shape. That case is the verdict `Raised`.

### Behaviour worth knowing

- The cache holds `self.cur_n`, the index most recently started by any worker. That is not
  the highest index handed out, and with concurrent workers the two differ.
- A cache that is not empty but malformed is not ignored. Resuming raises `IndexError`
  (fewer than three `-` pieces) or `ValueError`, and the scan never starts.
- A typed range without `-` is written to the cache before it is rejected. Every later run
  then fails on that cache (`Progress.DashlessInputPoisonsCache`).
- A match is not guarded to be handled once: each worker that finds one saves the key and
  calls `exit()`.
- A provider reply of the wrong shape raises out of `check_balance` instead of falling back
  to the next provider.

## Model

| member | source | states |
|---|---|---|
| PyText.Strip | KeyZero.py:41 | `s.strip()` is the slice of `s` after its leading white space; every character outside that slice is white space, and the result has no white space at either end |
| PyText.StripIdempotent | KeyZero.py:41 | stripping twice is stripping once, so the stored addresses are already stripped |
| PyText.ContainsInStrip | KeyZero.py:41 | a substring of `x.strip()` is a substring of `x` |
| PyText.SplitOn | KeyZero.py:230 | `split` never returns an empty list, and no piece contains the separator |
| PyText.SplitJoin | KeyZero.py:239-242 | splitting `"-".join(parts)` on `-` gives back `parts` when no part contains `-` |
| PyText.JoinSplit | KeyZero.py:239-242 | joining the pieces of a split gives back the original text |
| PyText.Join | KeyZero.py:242 | definition of `sep.join(parts)`, no contract of its own; its properties are `PyText.SplitJoin` and `PyText.JoinSplit` |
| PyText.Contains | KeyZero.py:41 | definition of the substring test `w in s`, no contract of its own; see `PyText.ContainsInStrip` and `WatchList.LoadedShape` |
| PyText.IsDigits | KeyZero.py:121 | definition of `str.isdigit()` over ASCII digits, no contract of its own; see `PyText.ParseDigits` and `Cores.DigitsAccepted` |
| PyText.FormatInt | KeyZero.py:62 | definition of `str(i)`, no contract of its own; see `PyText.FormatNat` and `PyText.ParseFormat` |
| PyText.Insert | KeyZero.py:240 | `list.insert(i, x)` puts `x` at `i`, or at the end when `i` is past it, and keeps the rest in order |
| PyText.ParseInt | KeyZero.py:233-235 | `int()` of a text without `-` is never negative |
| PyText.SeparatorIsNotIntSpace | KeyZero.py:233-235 | `int()` skips less white space than `strip()`: each information separator U+001C to U+001F is white space to `strip()`, yet any text holding one, anywhere, makes `int()` fail |
| PyText.StrippedSeparatorRefused | KeyZero.py:233-235 | a witness: `"\x1c5".strip()` is `"5"`, which `int()` reads as 5, while `int("\x1c5")` fails |
| PyText.ParseNegative | KeyZero.py:233-235 | `int()` of `-` followed by digits is the negated decimal value |
| PyText.FormatNat | KeyZero.py:62 | `str(n)` is a non-empty digit string without a leading zero whose value is `n` |
| PyText.ParseDigits | KeyZero.py:121-122 | on a digit string `int()` gives its decimal value |
| PyText.ParseFormat | KeyZero.py:233-235 | `int(str(i)) == i` for every integer |
| Progress.FormatCache | KeyZero.py:62 | definition of the ticker's line `f"{cur_n}-{start_r}-{end_n}"`, no contract of its own; see `Progress.CacheRoundTrip` |
| Progress.FreshCacheLine | KeyZero.py:239-242 | definition of the line the first run writes, no contract of its own; see `Progress.FreshThenResume` and `Progress.DashlessInputPoisonsCache` |
| Progress.CacheAfterStart | KeyZero.py:228-242 | definition of the cache once a scan has started: left alone when not empty, otherwise the first-run line; no contract of its own; see `Progress.StartThenResume` |
| Progress.Field | KeyZero.py:233-235 | `int(r0[k])` raises `IndexError` exactly when `k` is past the end, `ValueError` exactly when the piece is not a number, and otherwise gives a non-negative number |
| Progress.ReadFields | KeyZero.py:244-246 | `start_r`, `start_n` and `end_n` are read from `r0[1]`, `r0[0]` and `r0[2]`; success means all three are the pieces' values |
| Progress.ParseCache | KeyZero.py:228-236 | resuming fails with `IndexError` on fewer than three pieces, and succeeds only with non-negative numbers |
| Progress.Normalise | KeyZero.py:239-240 | `r0.insert(1, r0[0])` repeats the first piece and shifts the rest by one |
| Progress.FreshRange | KeyZero.py:238-247 | a range read on the first run starts dispatch at the start of the range |
| Progress.FreshRangeFields | KeyZero.py:238-247 | the first run succeeds exactly when the typed text has at least two `-` pieces and the first two are numbers; it then gives `start_n = start_r = a` and `end_n = b` |
| Progress.FreshPair | KeyZero.py:238-247 | typing `a-b` for naturals `a`, `b` gives the range from `a` to `b` |
| Progress.CacheRoundTrip | KeyZero.py:228-236 | a cache line written by the ticker is resumed with exactly the cursor and bounds it recorded |
| Progress.FreshThenResume | KeyZero.py:238-242 | the line the first run writes is resumed as the range the first run read; when the first run failed, resuming fails too |
| Progress.DashlessInputPoisonsCache | KeyZero.py:239-247 | a typed range without `-` is rejected, and the cache line it leaves behind makes every resume fail with `IndexError` |
| Progress.StartingRange | KeyZero.py:228-247 | the range a sequential scan starts from is non-negative whichever path read it |
| Progress.StartThenResume | KeyZero.py:228-247 | after a scan starts, the cache makes the next run start the same range; after a failed start, the next run fails too |
| Oracle.BalanceVerdict | KeyZero.py:67-84 | definition of the verdict of `check_balance`, no contract of its own; see `Oracle.FundedIff`, `Oracle.NotFundedIff`, `Oracle.FirstDecision`, `Oracle.LaterProvidersIgnored` and `KeyZero.Btcbf.CheckBalance` |
| Oracle.VerdictAfterSkips | KeyZero.py:67-84 | providers that were passed over do not change the verdict |
| Oracle.FundedIff | KeyZero.py:67-84 | `check_balance` returns `True` exactly when some provider gives a positive amount and every provider before it was passed over |
| Oracle.NotFundedIff | KeyZero.py:67-84 | it returns `False` exactly when every provider was passed over |
| Oracle.FirstDecision | KeyZero.py:67-84 | the first provider not passed over decides: `True` on a positive amount, an exception on a reply of the wrong shape |
| Oracle.Consulted | KeyZero.py:67-84 | at least one provider is asked when there is any; every provider asked before the last one was passed over; when some are left unasked, the last one asked is the first not passed over, so asking stops at the deciding provider |
| Oracle.LaterProvidersIgnored | KeyZero.py:67-84 | providers after the deciding one never affect the verdict |
| WatchList.Lines | KeyZero.py:41 | definition of `f.readlines()` as the pieces between line breaks, no contract of its own; see `WatchList.LoadedExactly` and `WatchList.LoadedShape` |
| WatchList.Keeps | KeyZero.py:41 | definition of the filter `x.strip() and "wallet" not in x`, no contract of its own; see `WatchList.KeptMembers` |
| WatchList.Kept | KeyZero.py:41 | definition of the comprehension's list, no contract of its own; see `WatchList.KeptMembers` |
| WatchList.LoadAddresses | KeyZero.py:35-42 | a missing address file gives the empty set |
| WatchList.KeptMembers | KeyZero.py:41 | an address is in the filtered list exactly when some line is kept and strips to it |
| WatchList.LoadedExactly | KeyZero.py:35-42 | an address is loaded exactly when some line of the file, stripped, is that address, is not blank and has no `wallet` marker |
| WatchList.LoadedShape | KeyZero.py:41-42 | every loaded address is non-empty and already stripped, and contains neither the marker nor a line break |
| Cores.CoreCount | KeyZero.py:112-131 | the worker count is between one and all processors; an empty answer means all; any count other than all comes from typed digits |
| Cores.DigitsAccepted | KeyZero.py:119-127 | a digit answer from one up to all processors is taken as typed; any other digit answer, `0` included, gives all processors |
| Dispatch.Span | KeyZero.py:251 | `range(a, b)` lists `a, a+1, …` up to `b - 1`, and nothing when `a >= b` |
| Dispatch.SpanExactlyOnce | KeyZero.py:251-252 | every index in `[a, b)` occurs exactly once, and nothing else occurs |
| Dispatch.SpanSnoc | KeyZero.py:251 | extending the range by one appends its end |
| KeyZero.CheckCandidate | KeyZero.py:98 | a candidate matches exactly when its address is on the watch list or the balance check returns `True`; the oracle is not consulted for a listed address, and the test fails only when the oracle raises |
| KeyZero.Btcbf.constructor | KeyZero.py:23-34 | every counter starts at zero, the scan is not sequential, the watch list is loaded and all processors are used |
| KeyZero.Btcbf.CheckBalance | KeyZero.py:65-84 | the loop computes the provider-fallback verdict and stops at the deciding provider: it consults exactly the providers up to and including the first one not passed over, or all of them when every one is passed over, and those alone decide the verdict |
| KeyZero.Btcbf.TestCandidate | KeyZero.py:90 | the watch-list-then-oracle test: no balance request for a listed address, otherwise the providers up to the deciding one are consulted |
| KeyZero.Btcbf.SequentialBrute | KeyZero.py:94-100 | the cursor becomes `n`; a key that cannot be derived fails; otherwise the derived address is tested, with no provider asked for a listed address and exactly the deciding prefix asked otherwise |
| KeyZero.Btcbf.RandomBrute | KeyZero.py:86-92 | the cursor becomes `n` and the random key's address is tested, with no provider asked for a listed address and exactly the deciding prefix asked otherwise |
| KeyZero.Btcbf.NumOfCores | KeyZero.py:112-131 | the worker count is set to the rule's value and returned |
| KeyZero.Btcbf.AssignRange | KeyZero.py:233-236 | the three fields are read in source order; on success the range fields are those values and the scan becomes sequential; on failure it does not |
| KeyZero.Btcbf.ResumeRange | KeyZero.py:228-236 | resuming reads exactly the range the cache line parses to, fails as that parse fails, and touches the cache not at all |
| KeyZero.Btcbf.StartFresh | KeyZero.py:237-247 | the first run writes the normalised typed range to the cache and reads the range the typed text gives |
| KeyZero.Btcbf.LoadRange | KeyZero.py:228-247 | the range read is the cache's when the cache is not empty, otherwise the typed one; the cache is left alone or replaced by the normalised typed range; the fields hold the range read |
| KeyZero.Btcbf.SubmitRange | KeyZero.py:251-252 | the indices `start_n, …, end_n - 1` are appended to the pool's queue, in order |
| KeyZero.Btcbf.SequentialOfflineAttack | KeyZero.py:226-252 | a sequential scan loads its range and, only when that succeeds, sets the worker count and submits exactly the range's indices in order |
| KeyZero.Btcbf.SaveProgress | KeyZero.py:60-62 | the cache is overwritten with `cur_n-start_r-end_n` |
| KeyZero.Btcbf.SpeedTick | KeyZero.py:46-62 | nothing happens while the cursor is zero; otherwise it reports the cursor, a zero rate on the first tick and half the cursor's change after that, and the distance from the range start; the previous cursor becomes the current one; the cache is rewritten in a sequential scan only |

## Left out

- Network access: each provider's HTTP request, status and body are abstracted to a `ProviderOutcome`, and its JSON or text is abstracted to an amount, an unreadable reply or a reply of the wrong shape.
- Key derivation: `Key()`, `Key().from_int(n)` and `to_wif` are a library; the model takes the address (or its absence) as given.
- Concurrency: the worker pool, the `speed` thread and `get_user_input` run concurrently in the source. The model runs one step at a time, so the re-read of `self.cur_n` at line 62 sees the same value as the read at line 49.
- Time: `time()`, `sleep` and the elapsed-time part of the status line are not modelled.
- The menus `get_user_input`, `_offline_brute_force` and `_online_brute_force`, plus the key-pair helpers `_generate_random_address` and `_generate_address_from_key`: interactive I/O only.
- `_random_offline_attack` and `_random_online_attack`: they only submit `random_brute` for every `i` in a range of 10^17 indices, which `KeyZero.Btcbf.RandomBrute` models one step at a time.
- `_save_found_key`: printing, appending to `foundkey.txt`, sleeping and `exit()` are I/O and process control; the model stops at the `Match` verdict.
- File creation: creating an empty `cache.txt` or `address.txt` when it is missing is represented by the empty string or the empty set.
- PyText.ParseInt: only the ASCII digits are digits here. Python's `int()` also reads other decimal digits, such as the Arabic-Indic ones, which the model rejects.
- PyText.ParseInt: from Python 3.11, and in the security releases 3.10.7, 3.9.14, 3.8.14 and 3.7.14, `int()` and `str()` raise `ValueError` on numbers of more than 4300 digits by default. The model has no such limit. So `PyText.ParseFormat`, `Progress.CacheRoundTrip` and `Progress.FreshPair` also cover numbers that Python would refuse there. `Progress.ParseCache` and `Progress.FreshRange` give `Ok` where lines 233-235 and 244-246 would raise. `Cores.CoreCount` and `Cores.DigitsAccepted` choose all processors where line 122 would raise on a longer digit answer. The source does not fix a Python version.
- PyText.IsDigits: only ASCII digits are digits here, while Python's `str.isdigit()` is also true for other digit characters such as `²` and `٣`; the consequences at line 122 follow on the next line.
- Cores.CoreCount: only ASCII digits count as digits here, which leaves two gaps. First, `str.isdigit()` is also true for characters that are not decimal digits, such as `²`. On such an answer Python's `int()` at line 122 raises `ValueError`; the model treats the answer as not digits and uses all processors. Second, on a non-ASCII decimal digit answer such as `٣`, Python uses 3 workers (when at least 3 processors exist), while the model uses all processors.
- KeyZero.Btcbf.AssignRange: when a later `int()` fails, the fields assigned before it keep their new values. The body models this, but the contract says only that `seq` stays as it was. Nothing reads those fields afterwards, because the cursor stays zero.
- KeyZero.Btcbf.SpeedTick: the contract gives the new cache contents as a formatted line. That the line can be resumed is proved separately by `Progress.CacheRoundTrip` rather than carried in the class invariant.
- KeyZero.Btcbf.LoadRange: the same applies to the first-run cache line, whose resumption is `Progress.FreshThenResume` and `Progress.StartThenResume`.
