# Storage daemon core: local shard store, config checks, farmer status, clean command

This project models four parts of the farming daemon in Dafny:

- **The local-filesystem shard store** (`LocalFilesystemAdapter`, module `LocalStorage`). It is a flat key-to-blob store. Each key is one file in a backing directory: the file name is the key and the content is the shard.
  - The directory is a `map` field that `Put` and `Delete` reassign.
  - Every filesystem call (mkdirp, readFile, writeFile, unlink, statSync, readdir) takes its outcome as a parameter, so a failure can be injected at each one.
  - The key listing is a separate `KeyStream` object. It drains a snapshot taken when the listing was made.
- **The configuration checks of the utility module** (module `Utils`):
  - the size and storage-allocation validators;
  - the two in-place repairs of `storageAllocation`;
  - the port checks in front of the listen probe;
  - the Ethereum payout-address filter;
  - the fallback of the daemon hostname to 127.0.0.1.
- **The farmer process's status reporting** (module `Farmer`):
  - how the transport's flags become a connection type and a status code;
  - how the NTP clock delta is classified;
  - the fields of the state object sent to the daemon.
- **The start of the `clean` command** (module `Clean`):
  - the node-id check;
  - how `--remote host[:port]` becomes the daemon's address and port.

The JavaScript built-ins this code relies on are modelled in module `JsValues`, restricted to integers and strings:

- `Number#toString` for integers;
- `parseInt(s, 10)` (section 19.2.5 of ECMA-262);
- the StringToNumber conversion behind the global `isNaN` (section 7.1.4.1.1 of ECMA-262);
- `String#split` with a one-character separator;
- `String#toLowerCase` on ASCII letters.

Files: `js_values.dfy`, `local_storage.dfy`, `utils.dfy`, `farmer.dfy`, `clean.dfy`.

## Model

| member | source | states |
|---|---|---|
| JsValues.IntToString | lib/utils.js:86 | The text of an integer: '-' exactly when it is negative, then the decimal digits of its magnitude with no leading zero (so, by CanonicalNumeralUnique, exactly the numeral Number#toString writes). It always ends in a digit. |
| JsValues.NatToDigits | lib/utils.js:86 | The numeral of a natural number: non-empty, digits only, with value n, and no leading zero (only "0" starts with '0'). |
| JsValues.LeadingNonZeroPositive | lib/utils.js:86 | A numeral that does not start with '0' has a value of at least 1. |
| JsValues.CanonicalNumeralUnique | lib/utils.js:86 | Every numeral without a leading zero is the one NatToDigits writes for its value: the decimal text of a number is unique. |
| JsValues.ParseInt | bin/xcore-clean.js:24 | Definition of parseInt(s, 10): skip leading white space, take an optional sign, read the longest digit run, NaN when there is none. Its properties are the ParseIntOf lemmas. |
| JsValues.ParseIntOfDigits | lib/utils.js:84 | parseInt reads a numeral, followed by any text that does not start with a digit, as the numeral's value. |
| JsValues.ParseIntOfIntToString | script/farmer.js:167 | Round trip: parseInt of an integer's text, with any non-digit text appended (for example "ms"), gives the integer back. |
| JsValues.ParseIntOfEmpty | bin/xcore-clean.js:24 | parseInt of the empty string is NaN. |
| JsValues.ParseDigits | bin/xcore-clean.js:24 | The digit run's value is NaN exactly when the text does not start with a digit. |
| JsValues.LeadingDigitsOfConcat | bin/xcore-clean.js:24 | The digit run of a numeral followed by non-digit text is exactly that numeral. |
| JsValues.LeadingDigits | bin/xcore-clean.js:24 | The longest all-digit prefix: it is a prefix, it holds only digits, and the next character (if any) is not a digit. |
| JsValues.TrimStart | bin/xcore-clean.js:24 | Drops exactly the leading white space: the result is a suffix, everything dropped is white space, and the result does not start with white space. |
| JsValues.TrimEnd | lib/utils.js:99 | Removes exactly the trailing white space, which isNaN ignores. |
| JsValues.DigitStringIsNumeric | lib/utils.js:99 | isNaN is false for a non-empty string of decimal digits. |
| JsValues.IsNaN | lib/utils.js:99 | Definition of the global isNaN on a number or a string: true exactly for a string whose trimmed text is not empty and not a StrNumericLiteral. DigitStringIsNumeric, BRejected and EmptyAllocationAccepted state its values on the inputs the code meets. |
| JsValues.ToString | lib/utils.js:130 | Definition of toString on the modelled values: a number's text is IntToString, a string is itself. Repaired, ValidatedAllocation and the format check go through it. |
| JsValues.IndexOf | bin/xcore-clean.js:22 | The first position of a character: the character is there, and it appears nowhere before. None means it appears nowhere. |
| JsValues.IndexOfAfter | bin/xcore-clean.js:22 | In a + [c] + b with no c in a, the first c is at \|a\|, and a and b are recovered around it. |
| JsValues.Split | bin/xcore-clean.js:22 | split always gives at least one part. |
| JsValues.JoinSplit | bin/xcore-clean.js:22 | Joining the parts of a split with the separator gives the original string back. |
| JsValues.SplitPartsFree | bin/xcore-clean.js:22 | No part of a split contains the separator. |
| JsValues.SplitHead | bin/xcore-clean.js:22-24 | The first part is the text before the first separator, or the whole string when there is no separator. A second part exists exactly when the separator occurs, and the remaining parts are the split of the text after it. |
| JsValues.ToLowerAscii | lib/utils.js:41 | Lower-casing keeps the length and lower-cases each ASCII letter in place. |
| LocalStorage.ItemPath | lib/storage/local.js:49-51 | A key's file path is the storage root, then '/', then exactly the key. |
| LocalStorage.ItemPathInjective | lib/storage/local.js:49-51 | Distinct keys map to distinct files. |
| LocalStorage.Message | lib/storage/local.js:37-40 | Definition of the text each error carries: 'Item not found', 'Invalid directory path supplied', Node's ENOENT text naming the call and the path, or a filesystem message passed through. Create, Peek, Get and Delete state the message for their own error cases. |
| LocalStorage.SumSizes | lib/storage/local.js:175-180 | Definition of the forEach accumulation: the running total over a prefix of the listing, adding each listed file's size in listing order. SumSizesOfListing equates it with TotalSize, and SizeAll's loop invariant follows it. |
| LocalStorage.ValidatePath | lib/storage/local.js:32-41 | Validation succeeds exactly for an existing directory, or a missing path that mkdirp creates (yielding an empty directory). A path that is not a directory fails with 'Invalid directory path supplied', and when the path is missing and mkdirp fails, that failure's message is passed through unchanged. |
| LocalStorage.ValidatePathIdempotent | lib/storage/local.js:32-41 | Validating the directory that a successful validation produced gives the same result and needs no creation. |
| LocalStorage.SumSizesOfListing | lib/storage/local.js:175-180 | Summing file sizes over any listing that names each file exactly once gives the directory's total size, whatever the listing order. |
| LocalStorage.TotalSizeRemove | lib/storage/local.js:167-189 | The total size is any one file's size plus the total size of the rest. |
| LocalStorage.TotalSizeAfterPut | lib/storage/local.js:118-133 | Storing a shard under a key changes the total size by the new size minus the old size of that key, if it had one. |
| LocalStorage.TotalSizeAfterDelete | lib/storage/local.js:141-150 | Deleting a file lowers the total size by exactly that file's size. |
| LocalStorage.TotalSizeOfThree | lib/storage/local.js:175-181 | A worked example of the aggregate: three files of 3, 4 and 5 bytes total 12. |
| LocalStorage.TotalSizeOfOne | test/storage/local.unit.js:192-197 | A store holding a single item totals exactly that item's shard length, as the aggregate-size test expects. |
| LocalStorage.LocalFilesystemAdapter.Bind | lib/storage/local.js:18-19 | After construction the store is bound to the path and holds the validated directory. |
| LocalStorage.LocalFilesystemAdapter.Create | lib/storage/local.js:11-21 | Construction succeeds exactly when the path validates. A fresh store then holds the validated directory. Otherwise the validation error comes back, so a path that is not a directory gives InvalidDirectoryPath, whose message is 'Invalid directory path supplied', and a failed mkdirp of a missing path gives that failure's message. |
| LocalStorage.LocalFilesystemAdapter.ExistsItem | lib/storage/local.js:57-60 | True exactly when the key's file is present. |
| LocalStorage.LocalFilesystemAdapter.Peek | lib/storage/local.js:94-109 | A missing key gives ItemNotFound (and only a missing key does), whose message is 'Item not found'. A read failure is passed through. Otherwise the result is the file's content. |
| LocalStorage.LocalFilesystemAdapter.Get | lib/storage/local.js:68-86 | Like Peek, including the 'Item not found' message for a missing key, but the content comes wrapped in a record whose hash is the key asked for. |
| LocalStorage.LocalFilesystemAdapter.Put | lib/storage/local.js:118-133 | A successful write sets the key's file to the item's shard and changes nothing else. A failed write returns its error and leaves the directory unchanged. |
| LocalStorage.LocalFilesystemAdapter.Delete | lib/storage/local.js:141-150 | Removes exactly the key's file. A missing key is an ENOENT error from unlink on that path, with Node's message "ENOENT: no such file or directory, unlink '<path>'"; another unlink failure is passed through. In both error cases the directory is unchanged. |
| LocalStorage.LocalFilesystemAdapter.Flush | lib/storage/local.js:157-159 | Always succeeds. |
| LocalStorage.LocalFilesystemAdapter.Size | lib/storage/local.js:184-187 | The byte length of the key's file. A missing key is an ENOENT error from stat, and a stat failure is passed through. |
| LocalStorage.LocalFilesystemAdapter.SizeAll | lib/storage/local.js:167-182 | A listing failure is passed through. Otherwise the loop over the listing returns the directory's total size. |
| LocalStorage.LocalFilesystemAdapter.Keys | lib/storage/local.js:196-204 | A listing failure comes before any key. Otherwise a fresh stream is returned whose snapshot is the listing, with nothing emitted yet. |
| LocalStorage.KeyStream.constructor | lib/storage/local.js:199-203 | The new stream has all of the snapshot's names pending and has not ended. |
| LocalStorage.KeyStream.Read | lib/storage/local.js:200-202 | Each read emits the next pending name, or ends the stream once none remain. What was emitted plus what is pending is always the snapshot. |
| LocalStorage.KeyStream.ReadToEnd | lib/storage/local.js:196-204 | Reading to the end yields every pending name once, in order, and the stream ends. |
| LocalStorage.PutThenRead | test/storage/local.unit.js:44-76 | After a successful put: get returns the key with the written shard, peek returns the shard, size returns its length, and the total size changes by the difference. |
| LocalStorage.PutLeavesOthers | lib/storage/local.js:118-133 | A put, successful or not, leaves what peek reports for every other key unchanged. A failed put leaves the whole directory unchanged. |
| LocalStorage.DeleteThenGet | lib/storage/local.js:141-150 | After deleting a present key: get reports 'Item not found' (the existence check at lib/storage/local.js:70-72), a second delete is an ENOENT error from unlink, and the total size drops by the file's size. |
| LocalStorage.KeysIgnoreLaterWrites | lib/storage/local.js:196-204 | The key stream yields exactly the listing taken when it was created, even after a later put. |
| Utils.ValidSizeParses | lib/utils.js:84-85 | Whenever _isValidSize holds, parseInt of the value's text gives the number back, so repairConfig's !isNaN(parseInt(...)) test also holds. |
| Utils.IsValidSize | lib/utils.js:59-61 | Definition of _isValidSize: a number that is not negative. |
| Utils.AllocationPatternShortest | lib/utils.js:129-132 | The unanchored pattern /[0-9]+([Tt]\|[Mm]\|[Gg]\|[Kk])?[Bb]/ matches exactly when some digit is followed by an optional unit letter and then B or b. |
| Utils.MatchesFromShortens | lib/utils.js:129-132 | A match of the pattern starting at k implies a shortest match (one digit, an optional unit, then B) at or after k. |
| Utils.NoBNoAllocation | lib/utils.js:129-132 | A text without B or b never passes the format check. |
| Utils.AllocationFormatExamples | lib/utils.js:129-132 | "10GB" and "5kb" pass the format check. "10", "10G" and the number 10 do not. |
| Utils.DigitsThenBIsValid | lib/utils.js:129-132 | Any text ending in a digit passes the format check once B is appended. |
| Utils.NumberNeverValidFormat | lib/utils.js:129-132 | No number passes the format check. |
| Utils.IsValidStorageAllocationFormat | lib/utils.js:129-132 | Definition of the format check: the pattern matches somewhere in the value's text. AllocationPatternShortest characterises it. |
| Utils.ContainsAllocationPattern | lib/utils.js:130-131 | Definition of String#match with the unanchored pattern: some start position where the pattern matches. |
| Utils.MatchesFrom | lib/utils.js:131 | Definition of the pattern matching from a position: a digit, then either more of the + loop or an optional unit letter and B/b. |
| Utils.Repaired | lib/utils.js:84-86 | Definition of the value repairConfig leaves: text plus B when parseInt of the text is a number and the size is valid, otherwise unchanged. RepairedExactly states what that amounts to. |
| Utils.RepairedExactly | lib/utils.js:82-89 | repairConfig changes the allocation exactly when it is a number that is not negative. It then becomes the number's text plus B, which passes the format check. Strings and negative numbers are kept. |
| Utils.Config.constructor | lib/utils.js:82 | A config holding the given allocation. |
| Utils.RepairConfig | lib/utils.js:82-89 | Rewrites the allocation in place to its repaired value and returns the same config object. |
| Utils.ValidatedAllocation | lib/utils.js:95-109 | A value that passes the format check is accepted unchanged. A value is rejected exactly when it fails the format check and isNaN holds, with 'Invalid storage size specified: ' plus its text. A value that fails the format check and is not NaN is accepted as its text plus B. |
| Utils.ValidatedDigitString | lib/utils.js:95-109 | A bare numeral string is accepted with B appended, and the result passes the format check. |
| Utils.ValidatedNumber | lib/utils.js:95-109 | A number is always accepted as its text plus B, and the result passes the format check. |
| Utils.BRejected | lib/utils.js:98-103 | "B" fails the format check and is NaN, so it is rejected. |
| Utils.EmptyAllocationAccepted | lib/utils.js:98-105 | The empty string is not NaN and fails the format check, so it is accepted as "B". |
| Utils.EmptyAllocationAcceptedThenRejected | lib/utils.js:95-109 | Validation is not idempotent: "" is accepted as "B", and validating "B" again rejects it. |
| Utils.ValidateAllocation | lib/utils.js:95-109 | Reports no error and stores the accepted allocation, or returns the rejection message and leaves the config untouched. |
| Utils.CheckPort | lib/utils.js:174-180 | A port is invalid exactly when it is not a number or lies outside 0..65535. It is well-known exactly when it lies in 0..1024. Only 1025..65535 reach the probe. |
| Utils.PortError | lib/utils.js:175-179 | The message each refused port is called back with: 'Invalid port', or the well-known-range warning. |
| Utils.IsValidEthereumAddress | lib/utils.js:32-45 | An address is accepted exactly when it is a string, its lower-case form is neither disallowed address, it starts with "0x", and isAddress accepts it. |
| Utils.DisallowedInAnyCase | lib/utils.js:35-43 | Any spelling of a disallowed address, in any letter case, is refused whatever isAddress says. |
| Utils.NeedsHexPrefix | lib/utils.js:44 | Without the lower-case "0x" prefix an address is refused. |
| Utils.DaemonHostname | lib/utils.js:225-228 | A falsy hostname (absent or empty) becomes 127.0.0.1, and any other is kept. The result is never empty. |
| Farmer.GetPort | script/farmer.js:102-107 | The port is known exactly when the transport is initialized, and it is then the contact's port. |
| Farmer.TransportInitialized | script/farmer.js:97-100 | Definition: both the traversal flag and the port-open flag are defined. |
| Farmer.ConnectionType | script/farmer.js:109-121 | The type is one of "", (Tunnel), (Private), (uPnP) or (TCP). It is empty exactly when the transport is not initialized. |
| Farmer.ConnectionStatus | script/farmer.js:123-138 | The status is one of -1, 0, 1 or 2. It is 0 exactly when the transport is initialized and the port is open. |
| Farmer.UninitializedUnknown | script/farmer.js:97-100 | Before both transport flags are defined, the port is '...', the type is empty and the status is -1. |
| Farmer.OpenPortReachable | script/farmer.js:127-129 | An open port gives status 0 whatever the tunnel state. |
| Farmer.TunneledFarmer | script/farmer.js:113-115 | A tunneled farmer shows as (Tunnel), with status 1 when the port is closed. |
| Farmer.PrivateFarmer | script/farmer.js:116-119 | Without a tunnel, traversal or public address the farmer is (Private), with status 2 when the port is closed. |
| Farmer.DirectFarmer | script/farmer.js:120 | Otherwise the type is (uPnP) exactly when traversal is required and (TCP) exactly when it is not, and a closed port leaves the status -1. |
| Farmer.StatusFollowsType | script/farmer.js:123-138 | With the port closed, the status is determined by the connection type alone: (Tunnel) 1, (Private) 2, anything else -1. |
| Farmer.NtpErrorUnknown | script/farmer.js:162-165 | An NTP error gives delta '...' and status -1. |
| Farmer.ClassifyNtp | script/farmer.js:160-179 | The delta text and status as a table over the NTP reply; NtpErrorUnknown, NtpInSync and NtpDeltaText state its cases, and UpdateNtpDelta is proved to reach it. |
| Farmer.NtpInSync | script/farmer.js:171-176 | The status is 0 exactly when the delta lies within 500 ms either way, and 2 exactly when it lies outside. |
| Farmer.NtpDeltaText | script/farmer.js:167-170 | A delta within 9999 ms either way is shown as its text plus "ms", and parseInt reads the delta back from it. Beyond that range it is shown as '>9999ms'. |
| Farmer.FarmerState.constructor | script/farmer.js:14-32 | The initial state: port '...', status -1, type empty, NTP delta '...' and status -1 (what an NTP error reports), space '...', counters 0. |
| Farmer.FarmerState.UpdateNtpDelta | script/farmer.js:160-179 | After the step-by-step updates, the delta text and status are exactly those the classification gives for the reply. |
| Farmer.FarmerState.UpdatePercentUsed | script/farmer.js:150-158 | A truthy size result (defined and not 0) is recorded with its two renderings. A falsy one leaves the three fields unchanged. |
| Farmer.FarmerState.SendFarmerState | script/farmer.js:140-146 | The port, type and status are those of the transport. The peer count is the router's length. An undefined or zero counter reads as 0. |
| Clean.ResolveTarget | bin/xcore-clean.js:14-26 | Exits with code 1 exactly when the node id is falsy, and connects exactly when it is truthy. The connection then carries the node id and the address and port given by the first and second ':'-separated parts of the remote, or null and the default port. |
| Clean.RemoteAddress | bin/xcore-clean.js:20-22 | Definition of the address: null without a remote, otherwise the text before the first ':' (all of it when there is none). |
| Clean.RemotePort | bin/xcore-clean.js:19-24 | Definition of the port: the default without a remote or without a ':', otherwise parseInt of the text between the first and second ':'. |
| Clean.ConnectHost | bin/xcore-clean.js:28-37 | The host connectToDaemon dials: never empty, the address when it is truthy, and 127.0.0.1 when it is null or empty. |
| Clean.RemoteWithColon | bin/xcore-clean.js:22-24 | A remote whose host part has no ':' names that host, and its port is parseInt of the text after the first ':' up to the next one. |
| Clean.ExtraColonsIgnored | bin/xcore-clean.js:22-24 | Text after a second ':' is ignored: the address is the text before the first ':' and the port is parseInt of the text between the first and second. |
| Clean.HostOnlyRemote | bin/xcore-clean.js:21-23 | A remote without ':' is all address and keeps the default port. |
| Clean.ParseInt4000 | bin/xcore-clean.js:24 | parseInt reads "4000" as 4000. |
| Clean.PortOnlyRemote | bin/xcore-clean.js:21-26 | ":4000" gives an empty address, which the connection step turns into 127.0.0.1, and port 4000. |
| Clean.NoRemoteLocalDaemon | bin/xcore-clean.js:19-20 | Without a remote the daemon is reached at 127.0.0.1 on the default port. |

## Left out

- Real I/O. The filesystem, sockets, `process.send`, the NTP query, timers and event wiring are not modelled. Each filesystem result is a parameter, and the callbacks become return values.
- Sharing the directory with other processes is not modelled. Concurrent changes would break the assumption that the listing passed to `SizeAll` and `Keys` names exactly the files of `files`.
- mkdirp's creation of missing parent directories is not modelled. The model only distinguishes "missing", "a directory" and "not a directory", and a created path is an empty directory.
- The constructor of lib/storage/local.js works with or without `new`. Both forms collapse into `LocalFilesystemAdapter.Create`, because Dafny has no constructor that can fail.
- The file content is treated as bytes. The utf8 decoding that readFile and writeFile apply is not modelled.
- Keys are file names directly under the root. Keys holding '/' or naming a subdirectory are not modelled.
- A failed write is assumed to leave the file as it was. A partially written file is not modelled.
- LocalStorage.LocalFilesystemAdapter.SizeAll: a stat failure on a listed file is not modelled. The per-file callback at lib/storage/local.js:177-179 ignores its `err` argument, but that argument is never an error: `statSync` (lib/storage/local.js:186) throws before the callback is reached, and the throw escapes the readdir callback uncaught. No result reaches the caller in that case, so the model stats every listed file with success.
- LocalStorage.LocalFilesystemAdapter.Size: statSync throws rather than calling back with an error. The model returns the same error as a result.
- JavaScript numbers are restricted to integers. The following are not modelled:
  - fractions and NaN/Infinity as inputs;
  - the exponent notation `toString` uses from 1e21 upwards;
  - the precision that parseInt loses on long numerals.
- JsValues.ParseInt: the sign of a negative zero is not kept. In JavaScript, parseInt("-0") is -0, and here it is 0. No modelled result depends on the sign, because -0 and 0 name the same port.
- Farmer.FarmerState.UpdateNtpDelta: a fractional NTP delta is not modelled.
- `undefined`/`null` storage allocations, on which `toString()` throws, are not modelled. `JsValue` holds numbers and strings only.
- JsValues.ToLowerAscii: lower-casing is limited to ASCII letters. The full Unicode case mapping of `toLowerCase` is not modelled; this does not affect the two disallowed addresses, which are ASCII.
- Utils.IsValidEthereumAddress: web3-utils' `isAddress` (the checksum test) is a function parameter and is not modelled.
- Farmer.FarmerState.UpdatePercentUsed: the text of `bytes(result)` and of `((result / spaceAllocation) * 100).toFixed()` comes in as parameters.
- The following are not modelled:
  - the bridge-related state fields (`bridges`, `bridgesConnectionStatus`) and `lastActivity`;
  - the transport's `null` (as opposed to undefined) fields.
- Code outside these four parts is not modelled: the payout-address, directory and whole-config validators (`_isValidPayoutAddress`, `validate`), `existsSync`, `isDirectory`, `getDirectorySize`, `getFreeSpace`, `getNodeID`, the socket probe of `portIsAvailable`, the RPC connections, storage-manager selection, `cleanNode`, the daemon entry point and command-line parsing. They depend on bitcore, bytes, du, diskusage and storj-lib, or on the network.
