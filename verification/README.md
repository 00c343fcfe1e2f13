# stratis-cli core, modelled in Dafny

stratis-cli is the command-line client of stratisd, the Stratis storage
daemon. Almost everything it does is a D-Bus round trip, but around each
call sits deterministic local logic: parsing and checking arguments,
locating pools, filesystems and block devices in a GetManagedObjects
snapshot, deciding before a call whether a request can succeed,
interpreting the daemon's `(changed, return_code, message)` replies,
decoding loosely typed payloads, rendering tables and codes, and mapping
exceptions to explanations. This project models that logic as pure
functions over immutable data and proves what the client promises of it.

The model follows the program's files, one Dafny module per source file:

- **Argument parsing:**
  - `ParserShared`: size specifications, `ensure_nat`, the reject/default actions and the Clevis option rules;
  - `ParserEncryption`: the `bind nbde`/`bind tpm2` namespace rewriting;
  - `RangeParser`: `RangeAction`;
  - `Signature`: the D-Bus signature grammar.
- **Settings:**
  - `Environment`: the D-Bus timeout variable;
  - `ActionConstants`: interface names and version bounds;
  - `StratisdVersion`: the version gate;
  - `Dynamic`: the timeout and the absolute-path guard.
- **Identifiers and lookup:**
  - `Constants`: ids, search keys, D-Bus arguments and option enums;
  - `ManagedObjects` and `Data`: the snapshot and unique-match searches;
  - `Util`: pool-scoped object lists;
  - `ActionErrors`: the errors actions raise, and reply interpretation.
- **Actions:**
  - `PoolActions`, `Bind`, `Crypt`, `Debug`, `Blockdev` and `ReportPool`;
  - `ActionUtils`: Clevis information, payload decoding and passphrase checks.
- **Rendering:**
  - `Formatting`, `ListPool` and `ListFilesystem`;
  - `ErrorCodes`, `Alerts` and `StratisdConstants`.
- **Error mapping:**
  - `ErrorReporting`.
- **The earlier client's constants generator:**
  - `LegacyStratisdConstants` and `LegacyStratisdErrors`.
- **Shared foundations:**
  - `Wrappers`: Option and Result;
  - `Text`: Python's string built-ins;
  - `Sorting`: Python's `sorted`;
  - `Namespace`: argparse namespaces.

A Python function that may raise returns a `Result` whose failure is the
exception it would raise. Remote calls are replaced by their inputs: the
managed-object snapshot is a sequence of objects in the order the daemon
returns them, and each reply is a value. Accessors the model cannot see
(the `MOPool`, `MODev` and `MOFilesystem` readers, justbytes rendering,
`json.dumps`, the date formatter) are function parameters.

## Model

| member | source | states |
|---|---|---|
| ActionConstants.MinimumVersionParts | src/stratis_cli/_actions/_constants.py:26 | the minimum daemon version "3.8.2" splits at its dots into "3", "8" and "2" |
| ActionConstants.MinorComponent | src/stratis_cli/_actions/_constants.py:26-29 | the minimum version has three components and the second one is "8" |
| ActionConstants.RevisionIsR8 | src/stratis_cli/_actions/_constants.py:29 | the revision equals "r" followed by the second dot-separated component of the minimum version |
| ActionConstants.PoolInterfaceName | src/stratis_cli/_actions/_constants.py:29-34 | the pool interface built from the revision is "org.storage.stratis3.pool.r8" |
| ActionConstants.MinimumVersionTuple | src/stratis_cli/_actions/_constants.py:26 | the minimum version reads as the tuple (3, 8, 2) |
| ActionConstants.MaximumVersionTuple | src/stratis_cli/_actions/_constants.py:25 | the maximum version reads as the tuple (4, 0, 0) |
| ActionConstants.MinimumBelowMaximum | src/stratis_cli/_actions/_constants.py:25-27 | both bounds parse, and the minimum lies strictly below the maximum in tuple order, as the module-level assertion requires |
| ActionConstants.InterfacesDistinct | src/stratis_cli/_actions/_constants.py:31-35 | the five interface names are pairwise distinct |
| ActionErrors.InterpretReply | src/stratis_cli/_actions/_pool.py:267-271 | a reply succeeds iff its code is OK and it reports a change; a non-OK code is an engine error carrying the code and message, checked before `changed`; an OK reply without a change is the caller's no-change error |
| ActionErrors.UniqueObject | src/stratis_cli/_actions/_crypt.py:55-59 | succeeds iff exactly one object of the interface has the properties; the object it returns is in the snapshot, matches, and is the only match; otherwise a D-Bus lookup error naming the interface and properties |
| Crypt.PoolIdOf | src/stratis_cli/_actions/_crypt.py:48-49 | the pool id prefers the UUID over the name; with neither the assertion fails |
| Crypt.LocatePool | src/stratis_cli/_actions/_crypt.py:55-59 | the pool is found iff exactly one pool matches the id's managed-objects key, and it matches that key |
| Crypt.KeyDescArg | src/stratis_cli/_actions/_crypt.py:72-76 | `key_desc` is empty without a description, else the single entry `((False, 0), desc)` |
| Crypt.ClevisInfoArg | src/stratis_cli/_actions/_crypt.py:77-81 | `clevis_info` is empty without Clevis options, else the single entry `((False, 0), pin, json config)` |
| Crypt.ClevisInfoOf | src/stratis_cli/_actions/_crypt.py:64-66 | no Clevis options give `None`; otherwise the result is `ClevisInfo.get_info`'s, and fails exactly when that does |
| Crypt.Encrypt | src/stratis_cli/_actions/_crypt.py:48-83 | an already encrypted pool is a no-change error; on success the pool was unencrypted and `EncryptPool` goes to that pool's path with the id's D-Bus args and the two encoded arguments |
| Crypt.Unencrypt | src/stratis_cli/_actions/_crypt.py:103-121 | an unencrypted pool is a no-change error; on success the pool was encrypted and `DecryptPool` goes to its path |
| Crypt.Reencrypt | src/stratis_cli/_actions/_crypt.py:141-159 | an unencrypted pool is `ResourceNotFound("reencrypt", "encryption")`; on success the pool was encrypted and `ReencryptPool` goes to its path |
| Crypt.PreChecksPartition | src/stratis_cli/_actions/_crypt.py:61-155 | once the pool is found, exactly one of encrypt and unencrypt passes its pre-check, and reencrypt passes iff unencrypt does |
| Crypt.EncryptIncoherenceAsWrittenNamesNoPool | src/stratis_cli/_actions/_crypt.py:89-93 | as written, the encrypt incoherence message holds the literal placeholder `{pool_id}` where the pool should be named |
| Crypt.EncryptIncoherence | src/stratis_cli/_actions/_crypt.py:89-93 | the intended message starts with "Expected to change " followed by the pool id's string form |
| Crypt.EncryptIncoherenceTellsPoolsApart | src/stratis_cli/_actions/_crypt.py:89-93 | intended messages for pools with different ids (of equal length) differ |
| Crypt.Conclude | src/stratis_cli/_actions/_crypt.py:84-93 | as written, for all three calls: success iff the code is OK and there was a change; a non-OK code is the engine error with the reply's code and message; an OK reply without a change is the incoherence error with that call's message, the encrypt one holding the literal `{pool_id}` |
| Crypt.ConcludeIntended | src/stratis_cli/_actions/_crypt.py:84-93 | the intended outcome: the encrypt incoherence names the pool's id, and every other outcome is the as-written one |
| Crypt.ConcludeDiscrepancy | src/stratis_cli/_actions/_crypt.py:87-93 | the as-written and intended outcomes differ exactly for an encrypt whose reply is OK without a change |
| ActionUtils.GetInfo | src/stratis_cli/_actions/_utils.py:61-93 | tang/nbde options give pin "tang" with the URL plus the trust flag when `trust_url` is set, else the thumbprint, failing when the URL or both verifications are missing; tpm2 gives ("tpm2", {}); any other method fails |
| ActionUtils.GetInfoAgreesWithVerify | src/stratis_cli/_actions/_utils.py:61-93 | whatever the parser's `verify` accepted with a Clevis method, `get_info` turns into the same Clevis information |
| ActionUtils.DecodeEncryptionInfo | src/stratis_cli/_actions/_utils.py:101-119 | a consistent unencrypted payload gives value `None`; a consistent encrypted one gives the converted value; an inconsistent one records its message; the result is consistent iff the flag was set |
| ActionUtils.KeyDescriptionValue | src/stratis_cli/_actions/_utils.py:145-153 | a present key description is its string |
| ActionUtils.ClevisValue | src/stratis_cli/_actions/_utils.py:127-135 | a present Clevis value is a pair of strings, read as pin and configuration |
| ActionUtils.EncryptionInfoCases | src/stratis_cli/_actions/_utils.py:106-112 | the three payload shapes decode to a present description, to `None`, and to an inconsistency with its message |
| ActionUtils.ParseUuid | src/stratis_cli/_actions/_utils.py:162 | a UUID is the parse of the text exactly when its hex form is the text without its hyphens |
| ActionUtils.RemoveHyphens | src/stratis_cli/_actions/_utils.py:162 | the result has no hyphen, is no longer than the input, and is the input when it had none |
| ActionUtils.ParseUuidHex | src/stratis_cli/_actions/_utils.py:162 | a UUID's 32-digit hex form reads back as that UUID |
| ActionUtils.DecodeDevice | src/stratis_cli/_actions/_utils.py:161-163 | a device decodes only from a mapping with a string `uuid` that parses and a string `devnode`, and keeps both |
| ActionUtils.DecodeDevices | src/stratis_cli/_actions/_utils.py:191 | the list decodes iff every device does, element by element in order |
| ActionUtils.MetadataVersionOf | src/stratis_cli/_actions/_utils.py:208-216 | only 1 and 2 are metadata versions, and each maps to the version with that value |
| ActionUtils.PoolFeatureOf | src/stratis_cli/_actions/_utils.py:166-177 | exactly "encryption", "integrity" and "raid" are features, and a feature's string form is the text it came from |
| ActionUtils.PoolFeatureRoundTrip | src/stratis_cli/_actions/_utils.py:166-177 | reading a feature's string form gives the feature back |
| ActionUtils.FeatureSet | src/stratis_cli/_actions/_utils.py:218-221 | the set exists iff every entry is a known feature string, and holds exactly the features whose strings are listed |
| ActionUtils.OptionalEncryption | src/stratis_cli/_actions/_utils.py:193-203 | an absent entry stays `None`; a present one is decoded, and the whole fails iff that decoding does |
| ActionUtils.DecodeStoppedPool | src/stratis_cli/_actions/_utils.py:185-221 | Clevis info, key description and name are `None` iff absent and otherwise the decoded values; a present name is kept; the devices are the decoded device list; the metadata version is `None` when invalid or unknown; the features are present iff their flag is set and are the decoded feature set |
| ActionUtils.GetPass | src/stratis_cli/_actions/_utils.py:299 | the result is the line with all trailing newlines removed and nothing else |
| ActionUtils.GetPassIdempotent | src/stratis_cli/_actions/_utils.py:299 | stripping an already stripped line changes nothing |
| ActionUtils.GetPassphrase | src/stratis_cli/_actions/_utils.py:311-333 | with a keyfile, it is used if it exists and is a not-found error otherwise; without one, differing entries are a mismatch, checked before emptiness, and with `verify` off the entry is compared with itself |
| ActionUtils.MismatchBeforeEmpty | src/stratis_cli/_actions/_utils.py:315-319 | an empty first entry with a non-empty second is reported as a mismatch, not as empty |
| Alerts.PoolAlert.ToString | src/stratis_cli/_alerts.py:43-44 | an alert renders as its level letter, its category and its value zero-filled to three digits |
| Alerts.PoolAlert.Explain | src/stratis_cli/_alerts.py:46-65 | every alert has a non-empty explanation |
| Alerts.PoolAlert.Summarize | src/stratis_cli/_alerts.py:67-78 | every alert has a non-empty summary |
| Alerts.ExplainInjective | src/stratis_cli/_alerts.py:46-65 | distinct alerts have distinct explanations |
| Alerts.SummarizeInjective | src/stratis_cli/_alerts.py:67-78 | distinct alerts have distinct summaries |
| Alerts.RenderedAs | src/stratis_cli/_alerts.py:122-129 | the seven alerts render as EM001, EM002, WS001, IDS001, WDS002, WC001 and WC002 |
| Alerts.ValueDigits | src/stratis_cli/_alerts.py:43-44 | a rendering ends in three decimal digits denoting the alert's value within its class |
| Alerts.ToStringInjective | src/stratis_cli/_alerts.py:225-227 | distinct alerts render distinctly, so no two alerts share a key of `CODE_MAP` |
| Alerts.Members | src/stratis_cli/_alerts.py:226 | `list(c)` holds exactly the alerts of class `c` |
| Alerts.AllAlerts | src/stratis_cli/_alerts.py:205-210 | walking the classes in `CLASSES` order lists every alert, each once |
| Alerts.Insert | src/stratis_cli/_alerts.py:225-227 | `d[k] = v` keeps the dictionary's keys distinct and its entries in step with its key order |
| Alerts.FromPairs | src/stratis_cli/_alerts.py:225-227 | `dict(pairs)` is a well-formed insertion-ordered dictionary |
| Alerts.FromPairsDistinct | src/stratis_cli/_alerts.py:225-227 | with no key repeated, `dict(pairs)` has the pairs' keys in order and maps each key to its own value |
| Alerts.CodeMapContents | src/stratis_cli/_alerts.py:225-227 | `CODE_MAP` has one key per alert, the alerts' strings in `CLASSES` order, and maps each alert's string to that alert |
| Alerts.DictOfAlerts | src/stratis_cli/_alerts.py:225-227 | for distinct alerts, the dictionary of `(str(a), a)` pairs keys each alert by its string, in order |
| Alerts.PairsDistinct | src/stratis_cli/_alerts.py:226 | distinct alerts give pairs with distinct keys |
| Alerts.CodeStrs | src/stratis_cli/_alerts.py:237-241 | `code_strs()` lists distinct strings |
| Alerts.Codes | src/stratis_cli/_alerts.py:230-234 | `codes()` has one entry per key of `CODE_MAP` |
| Alerts.CodesMatchCodeStrs | src/stratis_cli/_alerts.py:229-241 | `codes()` lists every alert once in `CLASSES` order, and `code_strs()` holds the string of each at the same position |
| Alerts.FromStr | src/stratis_cli/_alerts.py:244-254 | a found alert renders as the input; no alert is found iff no alert renders as the input |
| Alerts.EntryUnderOwnString | src/stratis_cli/_alerts.py:225-227 | every alert in `CODE_MAP` is stored under its own string |
| Alerts.FromStrRoundTrip | src/stratis_cli/_alerts.py:243-254 | `from_str(str(a))` is `a` for every alert |
| Bind.PoolPath | src/stratis_cli/_actions/_bind.py:55-59 | the pool is found only when exactly one pool bears the name; otherwise the lookup error names the pool interface and the name |
| Bind.TokenSlotArg | src/stratis_cli/_actions/_bind.py:164-169 | an absent token slot is sent as `(False, 0)` and a given one as `(True, n)` |
| Bind.TokenSlotRoundTrip | src/stratis_cli/_actions/_bind.py:164-169 | the daemon reads back exactly the token slot that was given, or none |
| Bind.TangInfo | src/stratis_cli/_actions/_bind.py:87-92 | the Tang configuration always has the URL and, with `--trust-url`, the trust flag, otherwise the thumbprint; a missing thumbprint without `--trust-url` fails the assertion |
| Bind.TangInfoAgreesWithGetInfo | src/stratis_cli/_actions/_bind.py:87-94 | `bind_tang` builds the same Clevis information as the shared option decoding does for the same URL, trust flag and thumbprint |
| Bind.BindClevisCall | src/stratis_cli/_actions/_bind.py:53-67 | bind sends the pin, the JSON of the configuration and the token slot `(False, 0)` to the named pool; a failed lookup is passed on |
| Bind.BindTang | src/stratis_cli/_actions/_bind.py:80-94 | the configuration is checked before the pool is looked up; a successful plan binds pin "tang" |
| Bind.BindTpm | src/stratis_cli/_actions/_bind.py:97-106 | `bind_tpm` binds pin "tpm2" with an empty configuration |
| Bind.BindKeyringCall | src/stratis_cli/_actions/_bind.py:108-129 | `bind_keyring` binds the key description to the named pool with the token slot left to the daemon |
| Bind.Unbind | src/stratis_cli/_actions/_bind.py:138-172 | the Clevis method calls `UnbindClevis` and every other method `UnbindKeyring`, on the named pool, with the given token slot |
| Bind.RebindClevisCall | src/stratis_cli/_actions/_bind.py:187-212 | `rebind_clevis` calls `RebindClevis` on the named pool with the given token slot |
| Bind.RebindKeyringCall | src/stratis_cli/_actions/_bind.py:222-250 | `rebind_keyring` calls `RebindKeyring` on the named pool with the key description and the given token slot |
| Bind.Run | src/stratis_cli/_actions/_bind.py:69-77 | a non-OK return code is an engine error whatever `changed` says; an OK reply that changed nothing is a no-change error naming the command and the pool; only an OK, changed reply succeeds |
| Bind.BindsNeverNameTokenSlot | src/stratis_cli/_actions/_bind.py:61-67 | every bind, by Tang, TPM or keyring, leaves the choice of token slot to the daemon |
| Blockdev.StateValToString | src/stratis_cli/_actions/_blockdev.py:38-46 | values 0 to 4 name the states Missing, Bad, Spare, Not-in-use and In-use; any larger value gives the unknown-value marker |
| Blockdev.StateNamesDistinct | src/stratis_cli/_actions/_blockdev.py:42 | distinct known states have distinct names |
| Blockdev.Row | src/stratis_cli/_actions/_blockdev.py:70-74 | a row holds the device node, the size rendering of sectors times the sector size, and the state's name, or the unknown marker for a state value past the known ones |
| Blockdev.Rows | src/stratis_cli/_actions/_blockdev.py:65-75 | one row per block device, in the order of the search |
| Blockdev.NamedPool | src/stratis_cli/_actions/_blockdev.py:60-64 | the pool is found exactly when one pool bears the name; otherwise the lookup error is raised |
| Blockdev.ListPool | src/stratis_cli/_actions/_blockdev.py:54-84 | the listing has the three headings and alignments, three cells per row, rows sorted by device node, and is a permutation of the rows of the pool's devices; the sort is stable: rows with the same device node keep their order |
| Blockdev.ListPoolRowsAreThePoolsDevs | src/stratis_cli/_actions/_blockdev.py:65-75 | a row is listed exactly when it is the row of a block device whose `Pool` is the named pool's path |
| Blockdev.RowOfSomeDev | src/stratis_cli/_actions/_blockdev.py:69-75 | the rows are exactly the rows of the searched devices |
| Blockdev.AddDevice | src/stratis_cli/_actions/_blockdev.py:89-107 | the devices and the force flag go to the named pool's `AddDevs`; a non-OK return code is a runtime error carrying the code and message |
| Constants.YesOrNo.Truthy | src/stratis_cli/_constants.py:33-34 | only `YES` is true |
| Constants.YesOrNoFromString | src/stratis_cli/_constants.py:25-37 | `YesOrNo(s)` finds the member whose string is `s`, and finds one whenever some member has that string |
| Constants.MakeId | src/stratis_cli/_constants.py:57-64 | an id is made exactly when its type is UUID iff its value is a UUID, and then keeps the type and value |
| Constants.ManagedObjectsKey | src/stratis_cli/_constants.py:66-79 | the search key has the one property `Uuid` (the hex digits) for a UUID id and `Name` (the name) for a name id |
| Constants.ManagedObjectsKeySelects | src/stratis_cli/_constants.py:66-79 | the key selects exactly the objects whose property equals the id's hex digits or name; for a UUID id, exactly the objects whose `Uuid` property denotes that UUID |
| Constants.DbusArgs | src/stratis_cli/_constants.py:81-93 | the arguments are `id` (the hex digits or the name) and `id_type` ("uuid" or "name") |
| Constants.DbusArgsRoundTrip | src/stratis_cli/_constants.py:81-93 | the daemon reading the arguments back recovers the id they were made from |
| Constants.IdToString | src/stratis_cli/_constants.py:114-115 | a pool id renders as "pool with ", a filesystem id as "filesystem with ", then the id type, a space and the value |
| Constants.IdToStringInjective | src/stratis_cli/_constants.py:114-115 | two ids render alike exactly when they are equal, so the message identifies the id |
| Constants.IdToStringExamples | src/stratis_cli/_constants.py:153-154 | a name id renders as "pool with name poolname" or "filesystem with name fsname" |
| Constants.FromParserNamespace | src/stratis_cli/_constants.py:118-129 | a given UUID wins over a name; with neither, the result is `None` unless an id is required, which fails the assertion |
| Constants.StoppedPoolsFuncSelects | src/stratis_cli/_constants.py:131-146 | a UUID id selects exactly the key that denotes its UUID whatever the information; a name id selects by the information's "name" entry whatever the key |
| Constants.LegacyTokenSlot | src/stratis_cli/_constants.py:195-203 | a legacy pool keeps the keyring in token slot 1 and Clevis in token slot 2 |
| Constants.ClevisFromString | src/stratis_cli/_constants.py:205-215 | `Clevis(s)` finds the member whose string is `s`, and finds one whenever some member has that string |
| Constants.UnlockMethodFromString | src/stratis_cli/_constants.py:183-193 | `UnlockMethod(s)` finds the member whose string is `s`, and finds one whenever some member has that string |
| Constants.EncryptionMethodFromString | src/stratis_cli/_constants.py:171-180 | `EncryptionMethod(s)` finds the member whose string is `s`, and finds one whenever some member has that string |
| Constants.IntegrityTagSpecFromString | src/stratis_cli/_constants.py:218-228 | `IntegrityTagSpec(s)` finds the member whose string is `s`, and finds one whenever some member has that string |
| Constants.IntegrityOptionFromString | src/stratis_cli/_constants.py:231-240 | `IntegrityOption(s)` finds the member whose string is `s`, and finds one whenever some member has that string |
| Data.UniqueWrapper | src/stratis_cli/_actions/_data.py:211-236 | without `unique` every match is handed back; with it, exactly one match is returned, it matches and no other object does, and anything else raises the lookup error naming the interface and properties |
| Data.QueriesBoundToInterface | src/stratis_cli/_actions/_data.py:239-249 | `filesystems`, `pools` and `devs` only yield objects of their own interface, and their errors name that interface |
| Debug.LookupKey | src/stratis_cli/_actions/_debug.py:62-67 | a given name is the key; without one the key is the UUID's hex form, and with neither reading the UUID fails |
| Debug.ObjectPath | src/stratis_cli/_actions/_debug.py:68-70 | the path is found exactly when one object matches the key, and it is that object's path; otherwise the lookup error names the interface and key |
| Debug.PoolObjectPath | src/stratis_cli/_actions/_debug.py:50-71 | `pool debug get-object-path` finds the pool under the name or UUID key |
| Debug.FilesystemObjectPath | src/stratis_cli/_actions/_debug.py:80-101 | `filesystem debug get-object-path` finds the filesystem under the name or UUID key |
| Debug.BlockdevObjectPath | src/stratis_cli/_actions/_debug.py:110-122 | a block device is always found by the hex form of its UUID |
| Debug.PoolByUuidHasThatUuid | src/stratis_cli/_actions/_debug.py:62-70 | a pool found by UUID is the one pool whose `Uuid` property is that UUID's hex form, and a given name takes precedence over the UUID |
| Debug.RefreshState | src/stratis_cli/_actions/_debug.py:31-41 | `refresh_state` fails with an engine error carrying the code and message exactly when the return code is not OK |
| Dynamic.Timeout | src/stratis_cli/_actions/_dynamic.py:35-39 | the timeout is the validated `STRATIS_DBUS_TIMEOUT` when set, else the default in milliseconds |
| Dynamic.DefaultTimeout | src/stratis_cli/_actions/_dynamic.py:35-39 | with the variable unset the timeout is 120 seconds |
| Dynamic.RelativePaths | src/stratis_cli/_actions/_dynamic.py:95 | the relative paths are exactly the non-absolute paths given, and there are none iff every path is absolute; a single path is kept exactly when it is relative |
| Dynamic.RelativePathsAppend | src/stratis_cli/_actions/_dynamic.py:95-98 | the relative paths of two lists joined are those of the first then those of the second, so the guard's message lists them in argument order |
| Dynamic.Strings | src/stratis_cli/_actions/_dynamic.py:95 | a D-Bus array of strings gives one string per item |
| Dynamic.AbsPathGuard | src/stratis_cli/_actions/_dynamic.py:79-101 | the guarded method reaches the original exactly when every path under the key is absolute, and then returns its result; otherwise the failure lists the relative paths |
| Dynamic.AbsPathGuardLooksOnlyAtKey | src/stratis_cli/_actions/_dynamic.py:91-97 | only the guarded argument decides whether the original method is reached |
| Dynamic.GuardedMethods | src/stratis_cli/_actions/_dynamic.py:118-124 | the Manager guards `CreatePool`, the Pool guards `AddDataDevs` among others, and no other class guards anything |
| Dynamic.Invoke | src/stratis_cli/_actions/_dynamic.py:104-126 | an unguarded method is called directly; a guarded one goes through the absolute-path check on "devices" |
| Dynamic.CreatePoolRejectsRelative | src/stratis_cli/_actions/_dynamic.py:118-120 | a pool created with a relative device path never reaches the daemon |
| Environment.GetTimeout | src/stratis_cli/_actions/_environment.py:21-61 | a float, a non-integer, a value below -1 and a value above 1073741823 are each rejected with their own error; otherwise the result is the floor of the milliseconds over 1000, between -1 and 1073741 |
| Environment.GetTimeoutExamples | src/stratis_cli/_actions/_environment.py:47-61 | -1 ms gives -1, 0 and 999 ms give 0, 1000 ms gives 1, -2 is too small and 1073741824 too large |
| Environment.GetTimeoutString | src/stratis_cli/_actions/_environment.py:39-40 | a string is treated as the integer it denotes |
| ErrorCodes.Level.ToString | src/stratis_cli/_error_codes.py:21-31 | each level renders as a single letter |
| ErrorCodes.CodeString | src/stratis_cli/_error_codes.py:42-43 | a code string is the level letter, the category and the value zero-filled to at least three digits |
| ErrorCodes.PaddedDigit | src/stratis_cli/_error_codes.py:43 | `zfill(3)` of a single digit is two zeros and the digit, which denotes the digit's value |
| ErrorCodes.PoolErrorCode.ToString | src/stratis_cli/_error_codes.py:42-43 | a code renders as its class's level and category followed by its three-digit value |
| ErrorCodes.PoolErrorCode.Explain | src/stratis_cli/_error_codes.py:57-76 | every code has a non-empty explanation |
| ErrorCodes.PoolErrorCode.Summarize | src/stratis_cli/_error_codes.py:78-89 | every code has a non-empty summary |
| ErrorCodes.ExplainInjective | src/stratis_cli/_error_codes.py:57-76 | distinct codes have distinct explanations |
| ErrorCodes.SummarizeInjective | src/stratis_cli/_error_codes.py:78-89 | distinct codes have distinct summaries |
| ErrorCodes.Rendering | src/stratis_cli/_error_codes.py:34-151 | the codes render as EM001, EM002, WS001, IDS001 and WDS002 |
| ErrorCodes.RenderedAs | src/stratis_cli/_error_codes.py:145-150 | each code renders as its documented string |
| ErrorCodes.ValueDigits | src/stratis_cli/_error_codes.py:42-43 | a rendering ends in three decimal digits denoting the code's value within its class |
| ErrorCodes.ToStringInjective | src/stratis_cli/_error_codes.py:216-230 | distinct codes render distinctly |
| ErrorCodes.Members | src/stratis_cli/_error_codes.py:213 | `list(c)` holds exactly the codes of class `c` |
| ErrorCodes.FirstWithString | src/stratis_cli/_error_codes.py:53-55 | the first code whose string is `s`, found iff some code has that string |
| ErrorCodes.FromStr | src/stratis_cli/_error_codes.py:46-55 | `from_str` finds a code of its own class rendering as `s`, and finds none iff no code of the class renders as `s` |
| ErrorCodes.Codes | src/stratis_cli/_error_codes.py:209-213 | `codes()` lists every code once, classes in `CLASSES` order |
| ErrorCodes.FirstClassMatch | src/stratis_cli/_error_codes.py:224-230 | the first class whose `from_str` finds `s`, and none iff no class finds it |
| ErrorCodes.ErrorFromStr | src/stratis_cli/_error_codes.py:216-230 | the code found renders as `s`; nothing is found (`StopIteration`) iff no code renders as `s` |
| ErrorCodes.NoClassMatch | src/stratis_cli/_error_codes.py:224-230 | when no class finds `s`, no code renders as `s` |
| ErrorCodes.ErrorFromStrRoundTrip | src/stratis_cli/_error_codes.py:216-230 | `error_from_str(str(c))` and `c.from_str(str(c))` are `c` for every code |
| ErrorCodes.Explain | src/stratis_cli/_error_codes.py:233-239 | the explanation of the one code rendering as `s`, and none iff no code does |
| ErrorCodes.ExplainUnique | src/stratis_cli/_error_codes.py:233-239 | at most one code renders as a given string, so the explanation is well defined |
| Formatting.FetchProperty | src/stratis_cli/_actions/_formatting.py:49-77 | a missing property raises the not-found error naming the object type and property; an invalid value gives `None`; a valid one its representation |
| Formatting.ColumnLen | src/stratis_cli/_actions/_formatting.py:80-101 | the character count exceeds the entry's length by as much as the column's cells exceed the entry's cells |
| Formatting.ColumnLenOfLen | src/stratis_cli/_actions/_formatting.py:95-96 | with the `len` fallback the character count is the column width |
| Formatting.Pad | src/stratis_cli/_actions/_formatting.py:124-126 | the padded entry is `width` long, or the entry's length if longer, and is the entry with spaces placed by the alignment |
| Formatting.PadStrip | src/stratis_cli/_actions/_formatting.py:124-126 | padding loses nothing: stripping a padded entry without surrounding blanks gives the entry back |
| Formatting.PaddedShape | src/stratis_cli/_actions/_formatting.py:124-126 | where the spaces and the entry sit in a padded entry |
| Formatting.PaddedStrips | src/stratis_cli/_actions/_formatting.py:124-126 | an entry surrounded by spaces strips to the entry |
| Formatting.Cells | src/stratis_cli/_actions/_formatting.py:119-127 | one padded entry per cell, each padded to its column's character count with its column's alignment |
| Formatting.ColumnWidth | src/stratis_cli/_actions/_formatting.py:158-163 | a column's width is the widest cell in it, 0 with no rows |
| Formatting.ColumnWidths | src/stratis_cli/_actions/_formatting.py:152-163 | the loop computes every column's width as the widest cell in it |
| Formatting.PrintTable | src/stratis_cli/_actions/_formatting.py:131-167 | the headings are inserted before the caller's rows; one line per row, each the padded row followed by a newline |
| Formatting.TableWidths | src/stratis_cli/_actions/_formatting.py:152-163 | one width per column, the widest cell of the column |
| Formatting.JoinLength | src/stratis_cli/_actions/_formatting.py:128 | `"  ".join` yields the parts' lengths plus one separator between each two |
| Formatting.RowLength | src/stratis_cli/_actions/_formatting.py:104-128 | with the `len` fallback every row of a table is as wide as the sum of the column widths plus two spaces between columns |
| ErrorReporting.Next | src/stratis_cli/_error_reporting.py:85 | the next exception is the cause when there is one, else the context |
| ErrorReporting.NextSmaller | src/stratis_cli/_error_reporting.py:83-87 | each step of the chain goes to a strictly smaller exception, so the generator ends |
| ErrorReporting.GetErrors | src/stratis_cli/_error_reporting.py:78-87 | the list starts with the exception, each element is followed by its cause or context, and it ends where there is neither |
| ErrorReporting.ChainUnique | src/stratis_cli/_error_reporting.py:78-87 | any sequence of that shape is the list `get_errors` yields |
| ErrorReporting.InterpretDbusError | src/stratis_cli/_error_reporting.py:90-140 | access denied, a name with no owner and no reply each get their own explanation, and no other D-Bus error name gets one |
| ErrorReporting.CommonName | src/stratis_cli/_error_reporting.py:52-75 | the blockdev, filesystem and pool interfaces are "block device", "filesystem" and "pool"; any other interface raises the unknown-interface error |
| ErrorReporting.RuleOrderIndices | src/stratis_cli/_error_reporting.py:153-216 | the class rules are tried in the order of the `if` statements at those lines, nine in all |
| ErrorReporting.ClassRuleNone | src/stratis_cli/_error_reporting.py:143-216 | the class rules give no explanation exactly when none applies |
| ErrorReporting.ClassRuleFirst | src/stratis_cli/_error_reporting.py:143-216 | the first rule in order that applies decides the explanation |
| ErrorReporting.InterpretErrors1 | src/stratis_cli/_error_reporting.py:143-229 | an empty sub-chain raises; the first error's class rule wins; failing that, a D-Bus error at the end of the chain is read by its name, and anything else gets no explanation |
| ErrorReporting.InterpretErrors | src/stratis_cli/_error_reporting.py:232-254 | a chain whose head is not an action error, or whose interpretation raises, gets no explanation; otherwise the explanation is that of the chain after the head |
| ErrorReporting.HandleError | src/stratis_cli/_error_reporting.py:257-282 | the original exception is re-raised exactly when there is no explanation; otherwise the program exits with the error code and "Execution failed:", a line separator and the explanation |
| ErrorReporting.SingleErrorReraised | src/stratis_cli/_error_reporting.py:243-254 | a chain of one exception has nothing after its head, so it is always re-raised |
| ErrorReporting.OnlySecondAndLastMatter | src/stratis_cli/_error_reporting.py:143-247 | only the head, the element after it and the last element decide the explanation |
| ErrorReporting.MissingObjectExplained | src/stratis_cli/_error_reporting.py:153-159 | an empty unique-result error right after an action error says a pool or filesystem "which does not exist" was specified |
| LegacyStratisdConstants.Values | src/cli/_stratisd_constants.py:38-43 | every listed name is a key, and a name maps to the value of the last triple bearing it |
| LegacyStratisdConstants.Descriptions | src/cli/_stratisd_constants.py:38-43 | every listed value is a key, and a value maps to the description of the last triple bearing it |
| LegacyStratisdConstants.ParseErrorList | src/cli/_stratisd_constants.py:27-43 | names map to values and values to descriptions, exactly the listed ones, the later triple winning on a repeat |
| LegacyStratisdConstants.GetAttr | src/cli/_stratisd_constants.py:57 | an attribute is found exactly when the class was given it |
| LegacyStratisdConstants.BuildClass | src/cli/_stratisd_constants.py:46-57 | the class bears the given name, and has exactly the given names as attributes, each equal to its value |
| LegacyStratisdConstants.GetClass | src/cli/_stratisd_constants.py:60-72 | every listed name is an attribute holding the value of its last triple, and unlisted names are not attributes |
| LegacyStratisdConstants.DescriptionsDiscarded | src/cli/_stratisd_constants.py:71-72 | the descriptions take no part in the class: lists differing only in them give the same class |
| LegacyStratisdConstants.GetObject | src/cli/_stratisd_constants.py:88-109 | a cached class is returned without asking the daemon; otherwise the class of the reply is built and cached; a D-Bus error starting with the service-unknown text exits with "Service org.storage.stratis1 unavailable.", any other is re-raised, and a failure caches nothing |
| LegacyStratisdConstants.FetchedOnce | src/cli/_stratisd_constants.py:95-109 | after one successful fetch every later call returns the same class, whatever the daemon would reply |
| LegacyStratisdErrors.BuildClass | src/cli/_stratisd_errors.py:44-54 | the class is named `StratisdErrors` and has exactly the given names as attributes |
| LegacyStratisdErrors.GetClass | src/cli/_stratisd_errors.py:57-68 | every listed name is an attribute holding the value of its last triple, and only listed names are attributes |
| LegacyStratisdErrors.GetErrors | src/cli/_stratisd_errors.py:71-90 | the cached class, or the class of the `GetErrorCodes` reply, cached; a D-Bus error exits when the service is unknown and is re-raised otherwise |
| LegacyStratisdErrors.AgreesWithGenerator | src/cli/_stratisd_errors.py:17-90 | the error-code fetcher behaves exactly as the general generator does for `StratisdErrorsGen` |
| LegacyStratisdErrors.TwoFieldExample | src/cli/_stratisd_errors.py:44-54 | a class built from two fields has those fields with their values |
| ListFilesystem.PoolPath | src/stratis_cli/_actions/_list_filesystem.py:137 | the filesystem's `Pool()` is its pool's object path; a missing value is a `KeyError` |
| ListFilesystem.PathToName | src/stratis_cli/_actions/_list_filesystem.py:59-62 | every searched pool's path is a key, naming the last pool with that path |
| ListFilesystem.PathToNameStep | src/stratis_cli/_actions/_list_filesystem.py:59-62 | each pool's entry overwrites or adds to the entries of those before it |
| ListFilesystem.FsProps | src/stratis_cli/_actions/_list_filesystem.py:54-56 | the filesystem search is by the pool's path, plus the id's key when an id is given |
| ListFilesystem.Select | src/stratis_cli/_actions/_list_filesystem.py:44-69 | without a pool, every pool and filesystem; with one, the pool found by a unique search by name and its filesystems, exactly one when an id is given; any failed search is a lookup error |
| ListFilesystem.Listed | src/stratis_cli/_actions/_list_filesystem.py:64-69 | a unique match lists that one object; otherwise every match in order |
| ListFilesystem.SingleMatchIsPath | src/stratis_cli/_actions/_list_filesystem.py:50-53 | a search with exactly one match consists of that match, so the pool search by name finds only that pool's path |
| ListFilesystem.Quartet | src/stratis_cli/_actions/_list_filesystem.py:120-133 | the size column is the size triple followed by " / " and the limit, or "None" without one |
| ListFilesystem.TableRow | src/stratis_cli/_actions/_list_filesystem.py:135-141 | a row is the pool's name, the filesystem's name, the size quartet, the device and the formatted UUID; an unknown pool path is a `KeyError` |
| ListFilesystem.TableRows | src/stratis_cli/_actions/_list_filesystem.py:134-143 | one row per filesystem in order, or the error of a filesystem whose row cannot be built |
| ListFilesystem.FsTable | src/stratis_cli/_actions/_list_filesystem.py:115-156 | the table has the five headings, all left-aligned, five cells per row, its rows a permutation of the filesystems' rows sorted by pool name then filesystem name, rows with equal names keeping their order |
| ListFilesystem.SortedByPair | src/stratis_cli/_actions/_list_filesystem.py:154 | rows sorted by the pair key are in (pool, filesystem) order |
| ListFilesystem.DetailOf | src/stratis_cli/_actions/_list_filesystem.py:164-199 | the detail names the pool, filesystem, UUID and origin; free plus used is the total; a revert is shown exactly when there is an origin; an unknown pool is a `KeyError`, and then an unknown used size is the size library's refusal of `total - used` |
| ListFilesystem.ListFilesystems | src/stratis_cli/_actions/_list_filesystem.py:30-84 | the detail view is chosen exactly when an id is given; selection failures are passed on; otherwise the table or the detail of the selected filesystems |
| ListFilesystem.PoolListingNamesPool | src/stratis_cli/_actions/_list_filesystem.py:44-69 | listing the filesystems of one pool never fails on the pool-name lookup: every filesystem found names the selected pool |
| ListFilesystem.AllFilesystemsListed | src/stratis_cli/_actions/_list_filesystem.py:44-84 | listing every filesystem succeeds exactly when each filesystem's pool is a pool of the snapshot, with one row per filesystem |
| ListPool.NonExistentOrInconsistentToStr | src/stratis_cli/_actions/_list_pool.py:55-77 | an inconsistent value shows the inconsistency string, a consistent absent value the non-existence string, and a consistent present value its interpretation |
| ListPool.CodeStrings | src/stratis_cli/_actions/_list_pool.py:145 | the string form of each code, in order |
| ListPool.AlertString | src/stratis_cli/_actions/_list_pool.py:135-145 | the alert string is the codes' strings in sorted order joined by ", "; it is empty exactly when there are no codes, and a single code shows as its own string |
| ListPool.AlertStringOrderFree | src/stratis_cli/_actions/_list_pool.py:145 | the alert string does not depend on the order the codes come in |
| ListPool.AlertSummary | src/stratis_cli/_actions/_list_pool.py:148-158 | one line per code, in order: the code, a colon and its summary |
| ListPool.AlertCodes | src/stratis_cli/_actions/_list_pool.py:161-175 | the availability codes come first, followed by `NO_ALLOC_SPACE` exactly when the pool has no space left to allocate |
| ListPool.PoolsWithChangedDevs | src/stratis_cli/_actions/_list_pool.py:179-205 | a pool is in the first set iff one of its devices' observed size exceeds its recorded size, and in the second iff one is below it |
| ListPool.UnobservedIsUnchanged | src/stratis_cli/_actions/_list_pool.py:197-203 | devices that report no new size never mark their pool as changed |
| ListPool.FromSets | src/stratis_cli/_actions/_list_pool.py:208-230 | the increase code is present iff the pool is in the first set, the decrease code iff it is in the second, the increase first when both are |
| ListPool.GenString | src/stratis_cli/_actions/_list_pool.py:332-348 | the flag's code preceded by a space when the flag is true, `~` when false and `?` when unknown |
| ListPool.PropertiesString | src/stratis_cli/_actions/_list_pool.py:322-356 | the string has the codes Ca, Cr and Op at fixed places, separated by commas |
| ListPool.JoinThree | src/stratis_cli/_actions/_list_pool.py:356 | joining three parts puts the separator between each two |
| ListPool.PropertiesStringInjective | src/stratis_cli/_actions/_list_pool.py:332-356 | two properties strings are equal exactly when the three flags agree in the states `gen_string` distinguishes |
| ListPool.PropertiesPrefixes | src/stratis_cli/_actions/_list_pool.py:343-356 | each flag's prefix sits at its fixed place in the string |
| ListPool.DefaultRow | src/stratis_cli/_actions/_list_pool.py:367-379 | a started pool's row has five cells: its name, the size triple, then the properties and UUID cells, and the alerts |
| ListPool.DefaultRowCells | src/stratis_cli/_actions/_list_pool.py:367-379 | the row's computed cells are the properties string of the pool's three flags and the alert string of its availability, allocation and size-change codes; the UUID cell is the formatted UUID |
| ListPool.DevSizesOf | src/stratis_cli/_actions/_list_pool.py:194-197 | one size record per device, in order |
| ListPool.DefaultRows | src/stratis_cli/_actions/_list_pool.py:366-381 | one row per pool, in search order |
| ListPool.DefaultTable | src/stratis_cli/_actions/_list_pool.py:358-393 | one row per pool, five cells each, sorted by name with rows of equal name in search order, and the size-change alerts computed from all block devices |
| ListPool.RowsKeepWidth | src/stratis_cli/_actions/_list_pool.py:391 | sorting keeps the width of the rows |
| ListPool.SortedByName | src/stratis_cli/_actions/_list_pool.py:391 | rows sorted by their name key are in name order |
| ListPool.DefaultTableHasEveryPool | src/stratis_cli/_actions/_list_pool.py:363-391 | every pool of the snapshot has its row in the table |
| ListPool.DefaultDetail | src/stratis_cli/_actions/_list_pool.py:395-410 | the selected pool is found only by a unique match of the id's key; its alert codes come from its availability, its space and the size changes of its own block devices only |
| ListPool.DefaultEncryptionStrings | src/stratis_cli/_actions/_list_pool.py:253-271 | an unencrypted pool shows "unencrypted" twice; an encrypted one shows its key description and Clevis information, or the inconsistency or absence strings |
| ListPool.StoppedName | src/stratis_cli/_actions/_list_pool.py:419-426 | a stopped pool without a name shows as `<UNAVAILABLE>` |
| ListPool.KeyDescriptionStr | src/stratis_cli/_actions/_list_pool.py:481-485 | no encryption information shows as "unencrypted"; otherwise the key description, or the inconsistency or absence strings |
| ListPool.ClevisStr | src/stratis_cli/_actions/_list_pool.py:472-479 | no encryption information shows as "unencrypted"; a consistent binding only as "present" |
| ListPool.StoppedRow | src/stratis_cli/_actions/_list_pool.py:488-500 | a stopped pool's row shows its name, formatted UUID, device count in decimal, key description and Clevis cell |
| ListPool.DecodeAll | src/stratis_cli/_actions/_list_pool.py:494-498 | every stopped pool is decoded in order, and decoding succeeds iff each one decodes |
| ListPool.StoppedRows | src/stratis_cli/_actions/_list_pool.py:487-500 | one row per stopped pool, in order |
| ListPool.StoppedTable | src/stratis_cli/_actions/_list_pool.py:487-506 | the table has the five stopped-pool headings, one row per stopped pool sorted by name, rows of equal name in their original order, and is a permutation of the pools' rows |
| ListPool.FirstStopped | src/stratis_cli/_actions/_list_pool.py:511-518 | the first stopped pool the selection picks, and none iff it picks none |
| ListPool.StoppedDetail | src/stratis_cli/_actions/_list_pool.py:508-525 | no selected pool raises the not-found error naming the id; otherwise the first selected pool, decoded |
| ListPool.StoppedDetailLines | src/stratis_cli/_actions/_list_pool.py:428-461 | the detail shows the name, UUID, key description, then "inconsistent", "unencrypted" or the Clevis configuration's rendering, then one line per device |
| ManagedObjects.Search | src/stratis_cli/_actions/_data.py:228 | the search yields exactly the snapshot's objects that implement the interface and carry every searched property value, in snapshot order |
| ManagedObjects.SearchAppend | src/stratis_cli/_actions/_data.py:228 | searching distributes over concatenation, so snapshot order is kept |
| ManagedObjects.Property | src/stratis_cli/_actions/_data.py:197-208 | a property is found exactly when the object has the interface and the property under it, and it is that property's value |
| ParserEncryption.TangOptions | src/stratis_cli/_parser/_encryption.py:32-43 | the Tang wrapper sets `clevis` to TANG, moves `url` to `tang_url` and takes the shared options; it fails exactly when an attribute it reads is missing |
| ParserEncryption.Tpm2Options | src/stratis_cli/_parser/_encryption.py:46-58 | the TPM2 wrapper sets `clevis` to TPM2 and the three Tang options to None, and removes the four attributes from the namespace |
| ParserEncryption.Tpm2AlwaysVerifies | src/stratis_cli/_parser/_encryption.py:46-58 | TPM2 options always pass verification, yielding pin "tpm2" with an empty configuration |
| ParserEncryption.TangVerifies | src/stratis_cli/_parser/_encryption.py:32-43 | Tang options fail verification exactly when the URL is None, or when neither a true trust flag nor a thumbprint is given |
| ParserEncryption.NbdeAcceptedVerifies | src/stratis_cli/_parser/_encryption.py:60-90 | whatever argparse accepts for `bind nbde` (exactly one of `--trust-url` and `--thumbprint`) passes verification, the trust flag taking precedence |
| ParserEncryption.BindSubcommandFromName | src/stratis_cli/_parser/_encryption.py:60-121 | "nbde" and its alias "tang" select the NBDE subcommand, "tpm2" the TPM2 one and "keyring" the keyring one |
| ParserEncryption.RebindTokenSlot | src/stratis_cli/_parser/_encryption.py:123-172 | an absent `--token-slot` is None; a given one is accepted exactly when `ensure_nat` accepts it, with its value |
| ParserShared.UnitExponent | src/stratis_cli/_parser/_shared.py:46-67 | exactly the six binary units are known, B to PiB, as powers 0 to 5 of 1024 |
| ParserShared.UnitExponentValues | src/stratis_cli/_parser/_shared.py:46-67 | B, KiB, MiB, GiB, TiB and PiB are powers 0 to 5; decimal and lower-case units are unknown |
| ParserShared.DigitPrefixLength | src/stratis_cli/_parser/_shared.py:36 | the longest prefix of decimal digits |
| ParserShared.MatchRange | src/stratis_cli/_parser/_shared.py:36 | a match splits the input into a non-empty run of digits and a binary unit, allowing only one final newline |
| ParserShared.MatchRangeComplete | src/stratis_cli/_parser/_shared.py:36 | every digits-then-unit string, with or without a final newline, matches |
| ParserShared.ParseRange | src/stratis_cli/_parser/_shared.py:70-90 | a size is accepted exactly when the pattern matches, and is then the magnitude times 1024 to the unit's power; otherwise the ill-formed-size error |
| ParserShared.ParseRangeExact | src/stratis_cli/_parser/_shared.py:70-90 | digits followed by a binary unit (and an optional newline) denote the magnitude times the unit's size |
| ParserShared.ParseRangeAcceptsLeadingZeros | src/stratis_cli/_parser/_shared.py:36 | "01GiB" is accepted as one GiB |
| ParserShared.ParseRangeRejectsDecimalUnits | src/stratis_cli/_parser/_shared.py:36 | "2KB" is refused |
| ParserShared.ParseRangeRejectsMissingMagnitude | src/stratis_cli/_parser/_shared.py:36 | "GiB" without a magnitude is refused |
| ParserShared.EnsureNat | src/stratis_cli/_parser/_shared.py:114-127 | accepted exactly when `int(arg)` parses to a non-negative number, which is the result; otherwise "Argument ... is not a natural number." |
| ParserShared.EnsureNatRoundTrip | src/stratis_cli/_parser/_shared.py:114-127 | every natural number's decimal form is accepted as itself; negative numbers are refused |
| ParserShared.EnsureNatAcceptsNegativeZero | src/stratis_cli/_parser/_shared.py:119-127 | "-0" is accepted as 0 |
| ParserShared.EnsureNatRejectsNegative | src/stratis_cli/_parser/_shared.py:125-126 | "-1" is refused |
| ParserShared.EnsureNatRejectsWord | src/stratis_cli/_parser/_shared.py:118-123 | "x" is refused |
| ParserShared.RejectAction | src/stratis_cli/_parser/_shared.py:93-101 | any use of the option is the error "Option ... can not be assigned to or set." |
| ParserShared.DefaultAction | src/stratis_cli/_parser/_shared.py:104-111 | the value is stored, `<dest>_default` is set to False, and nothing else changes |
| ParserShared.TakeClevisOptions | src/stratis_cli/_parser/_shared.py:185-196 | the four options are taken and removed from the namespace; a missing one is an attribute error |
| ParserShared.Verify | src/stratis_cli/_parser/_shared.py:198-245 | the first violated rule is the error, in the order `verify` checks them; otherwise no Clevis, the Tang configuration or pin "tpm2" with an empty configuration |
| ParserShared.TangConfigShape | src/stratis_cli/_parser/_shared.py:232-241 | the Tang configuration holds the URL and exactly one of the trust flag and the thumbprint |
| ParserShared.VerifyRejections | src/stratis_cli/_parser/_shared.py:202-228 | each of the four rules has a combination of options that it reports |
| ParserShared.VerifyTangTrust | src/stratis_cli/_parser/_shared.py:230-241 | Tang with a URL and a trust flag yields the trust configuration |
| ParserShared.VerifyTangThumbprint | src/stratis_cli/_parser/_shared.py:230-241 | NBDE with a URL and a thumbprint yields the thumbprint configuration |
| PoolActions.PoolMap | src/stratis_cli/_actions/_pool.py:69-72 | every searched pool's path is a key, and each key names a pool with that path |
| PoolActions.OwnersKnownSnoc | src/stratis_cli/_actions/_pool.py:75-83 | adding a device to the search keeps the owners known exactly when its owner is known too |
| PoolActions.OwnsSnoc | src/stratis_cli/_actions/_pool.py:75-83 | a pool owns a requested device of the longer search iff it owned one before or owns the new device |
| PoolActions.PoolsToBlockdevs | src/stratis_cli/_actions/_pool.py:54-87 | a device whose pool is unknown is a `KeyError`; otherwise every pool maps to the non-empty set of requested devices of the tier it owns, and only such pools appear |
| PoolActions.OwnedIffNonEmpty | src/stratis_cli/_actions/_pool.py:85-87 | the map is non-empty exactly when some requested device of the tier is owned by a pool |
| PoolActions.CheckOppositeTier | src/stratis_cli/_actions/_pool.py:90-115 | the check fails exactly when a requested device is already in the other tier, naming the owners and the other tier |
| PoolActions.CheckSameTier | src/stratis_cli/_actions/_pool.py:118-150 | devices the target pool already owns are a partial change; otherwise devices owned by other pools in this tier are in use |
| PoolActions.SameTierVerdict | src/stratis_cli/_actions/_pool.py:135-150 | a partial change when the target pool owns some requested device, naming those still to add and those already present; else an in-use error exactly when other pools own some |
| PoolActions.PartialChangePartitions | src/stratis_cli/_actions/_pool.py:137-142 | a partial change splits the request: the devices still to add and those already present partition it |
| PoolActions.AbsoluteSet | src/stratis_cli/_actions/_pool.py:173 | the request is the set of the absolute forms of the given paths |
| PoolActions.IntegrityArguments | src/stratis_cli/_actions/_pool.py:182-240 | no integrity sends a zero journal, tag `0b` and no superblock; otherwise the journal size, tag and superblock; a journal size beyond an unsigned 64-bit integer is the invalid-option error |
| PoolActions.CreatePool | src/stratis_cli/_actions/_pool.py:159-246 | a taken name is a name conflict; then a failing cache-tier check, data-tier check or integrity argument is the result, in that order; when all pass the call goes out with the pool name, the absolute device set, the encoded key description and Clevis info, and the integrity arguments |
| PoolActions.CreatePoolDevicesUnowned | src/stratis_cli/_actions/_pool.py:178-180 | a created pool's devices are in neither tier of any pool |
| PoolActions.InterpretAddReply | src/stratis_cli/_actions/_pool.py:386-409 | a non-OK code is an engine error; the reply succeeds exactly when the devices were added and none is missing |
| PoolActions.StopOrStartReply | src/stratis_cli/_actions/_pool.py:264-269 | an OK reply with no change is a no-change error naming the pool; only an OK changed reply succeeds |
| PoolActions.RenameReply | src/stratis_cli/_actions/_pool.py:491-498 | an OK reply with no change is a no-change error naming the new name; only an OK changed reply succeeds |
| PoolActions.SelectStoppedPool | src/stratis_cli/_actions/_pool.py:291-302 | none iff no stopped pool is selected by the id; otherwise the decoding of the first one selected |
| PoolActions.UnlockArgument | src/stratis_cli/_actions/_pool.py:287-325 | a token slot wins; without a method, unlock only if a key is supplied; "any" unlocks with any token; for "clevis" and "keyring" a pool not found is refused, a stopped-pool record that does not decode gives its decoding error, a metadata version 2 pool is refused naming the method, and any other pool unlocks with the method's legacy token slot |
| PoolActions.UnlockArgumentIdentifiesMethod | src/stratis_cli/_actions/_pool.py:289-325 | with no token slot, two accepted unlock methods give the same unlock argument exactly when they are the same method |
| PoolActions.LegacyUnlockRefusedForV2 | src/stratis_cli/_actions/_pool.py:297-325 | for a pool that is found and decodes, "clevis" or "keyring" is accepted exactly when the pool's metadata version is not 2 |
| PoolActions.StartPool | src/stratis_cli/_actions/_pool.py:274-356 | the unlock argument is decided first and its failure is the result; once it is accepted, with no key supplied the arguments are the unlock argument and no key, and with a key supplied a passphrase failure is the result and otherwise the key source is sent with the unlock argument; the passphrase is never asked twice |
| PoolActions.InitCache | src/stratis_cli/_actions/_pool.py:358-389 | the pool is looked up first and its lookup error is the result; then a pool with a cache is refused; then a failing data-tier check, then a failing cache-tier check is the result; otherwise the pool found and the absolute device set |
| PoolActions.FirstNamed | src/stratis_cli/_actions/_pool.py:371-375 | the first pool bearing the name |
| PoolActions.UniquePool | src/stratis_cli/_actions/_data.py:211-233 | found exactly when one pool bears the name, and it is that pool; otherwise the D-Bus lookup error naming the pool interface and the Name property |
| PoolActions.AddDevices | src/stratis_cli/_actions/_pool.py:504-557 | a failing opposite-tier check is the result, then a failing same-tier check, then the pool lookup error; otherwise the pool found and the absolute device set |
| PoolActions.SetFsLimit | src/stratis_cli/_actions/_pool.py:737-757 | setting the current limit again is refused with the message naming it; otherwise the new limit is set |
| PoolActions.SetOverprovisioning | src/stratis_cli/_actions/_pool.py:760-782 | the decision is a yes-or-no choice; repeating the current mode is refused with the message naming it; otherwise the mode becomes true exactly for "yes" |
| PoolActions.Filter | src/stratis_cli/_actions/_pool.py:688 | the elements of the list satisfying the predicate |
| PoolActions.HexSet | src/stratis_cli/_actions/_pool.py:690 | the set of the requested UUIDs' hex forms |
| PoolActions.Chosen | src/stratis_cli/_actions/_pool.py:691-693 | the devices whose UUID is among the requested ones |
| PoolActions.DevicesToExpandAsWritten | src/stratis_cli/_actions/_pool.py:680-724 | an empty request selects exactly the pool's expandable devices; with a shortfall, every requested UUID is reported missing, present or not, and any missing-devices report names every requested UUID |
| PoolActions.DevicesToExpandAsWrittenAgrees | src/stratis_cli/_actions/_pool.py:680-724 | the selection as written reports missing devices exactly when the corrected one does, and otherwise has the same outcome: the same devices, or the same partial change |
| PoolActions.Missing | src/stratis_cli/_actions/_pool.py:694-697 | the requested UUIDs no device of the pool has |
| PoolActions.DevicesToExpand | src/stratis_cli/_actions/_pool.py:680-727 | an empty request expands every expandable device; otherwise exactly the requested devices, all expandable, or the missing UUIDs, or a partial change when some requested device cannot expand |
| PoolActions.DevicesToExpandOutcome | src/stratis_cli/_actions/_pool.py:694-727 | with unique device UUIDs, a non-empty request yields the missing UUIDs when some are missing, else a partial change when a requested device cannot expand, else exactly the requested devices |
| PoolActions.ChosenAreRequested | src/stratis_cli/_actions/_pool.py:691-693 | a device is chosen exactly when its UUID was requested |
| PoolActions.ExtendData | src/stratis_cli/_actions/_pool.py:694-735 | as written: a failed selection is the result, so with a shortfall every requested UUID is reported missing; an empty selection is reported as no size change; otherwise the devices to expand |
| PoolActions.ExtendDataAgrees | src/stratis_cli/_actions/_pool.py:680-735 | `extend_data` as written reports missing devices exactly when the corrected version does, and has the same outcome in every other case |
| PoolActions.ExtendDataIntended | src/stratis_cli/_actions/_pool.py:694-735 | with the missing UUIDs computed as intended: a failed selection is the result and names exactly the requested UUIDs no device has; an empty selection is no size change; a success is non-empty, only expandable devices of the pool, and for a non-empty request exactly the requested ones |
| PoolActions.DistinctTail | src/stratis_cli/_actions/_pool.py:691-693 | the devices after the first keep distinct UUIDs and do not have the first one's |
| PoolActions.ChosenCount | src/stratis_cli/_actions/_pool.py:691-694 | with unique UUIDs, one device is chosen per requested hex string some device has |
| PoolActions.CommonCons | src/stratis_cli/_actions/_pool.py:694 | adding an element to one side grows the intersection by one exactly when the other side has it |
| PoolActions.ShortfallIffMissing | src/stratis_cli/_actions/_pool.py:694 | with unique device UUIDs, `len(expand_modevs) < len(device_uuids)` holds exactly when some requested UUID is missing |
| PoolActions.StrictSubsetCard | src/stratis_cli/_actions/_pool.py:694 | a subset that misses an element is strictly smaller |
| PoolActions.MissingHexAbsent | src/stratis_cli/_actions/_pool.py:694-697 | a missing UUID's hex form is requested and no device has it |
| PoolActions.NothingMissing | src/stratis_cli/_actions/_pool.py:694-697 | with nothing missing, every requested hex form is some device's |
| PoolActions.ExtendDataReportsPresentDevices | src/stratis_cli/_actions/_pool.py:694-702 | for a pool whose only device is `a`, a request for `a` and `b` makes `ExtendData` report both as missing, and `ExtendDataIntended` only `b` |
| PoolActions.TwoHexes | src/stratis_cli/_actions/_pool.py:690 | two distinct UUIDs give two hex forms |
| PoolActions.ChosenSingle | src/stratis_cli/_actions/_pool.py:691-693 | a single requested device is chosen |
| PoolActions.RequestedPair | src/stratis_cli/_actions/_pool.py:696 | the set of a two-element request |
| PoolActions.MissingOfPair | src/stratis_cli/_actions/_pool.py:694-697 | with only `a` present, `b` alone is missing from a request for both |
| RangeParser.UnitExponent | src/stratis_cli/_parser/_range.py:25-44 | exactly the units B, KiB, MiB, GiB and TiB are accepted, each a power of 1024 no higher than the fourth |
| RangeParser.RoundDown | src/stratis_cli/_parser/_range.py:79 | rounding toward minus infinity gives the largest whole number of bytes not above the exact size |
| RangeParser.RangeAction | src/stratis_cli/_parser/_range.py:61-83 | text without a space is rejected as missing the space; an unknown unit is an error, and an unreadable magnitude carries the size library's message; otherwise only the destination is set, to the size rounded down to whole bytes |
| RangeParser.RangeActionWhole | src/stratis_cli/_parser/_range.py:70-83 | a whole magnitude followed by a space and a known unit is stored as exactly magnitude times the unit |
| ReportPool.SelectionKey | src/stratis_cli/_actions/_report_pool.py:97-102 | a UUID selects by its hex form under "Uuid", a name by itself under "Name" |
| ReportPool.MapDevnodes | src/stratis_cli/_actions/_report_pool.py:110-117 | one device node per device, in the same order |
| ReportPool.DefaultReport | src/stratis_cli/_actions/_report_pool.py:86-120 | succeeds exactly when one pool matches the selection; the lsblk command line is `lsblk -i` followed by the device nodes of that pool's block devices |
| ReportPool.DefaultReportDevices | src/stratis_cli/_actions/_report_pool.py:110-117 | the devices reported are exactly the block devices whose Pool property is the selected pool's object path |
| ReportPool.StoppedSelectsAgrees | src/stratis_cli/_actions/_report_pool.py:138-147 | the stopped-pool selection agrees with the pool id's selection function for stopped pools |
| ReportPool.FirstSelected | src/stratis_cli/_actions/_report_pool.py:149-156 | the first stopped pool selected, or none exactly when no stopped pool is selected |
| ReportPool.StoppedDevnodes | src/stratis_cli/_actions/_report_pool.py:163 | the devnode entry of each device record in order; an entry without one is a key error |
| ReportPool.StoppedReport | src/stratis_cli/_actions/_report_pool.py:128-164 | no selected stopped pool is a not-found error naming the selection; otherwise `lsblk -i` followed by the first selected pool's device nodes |
| ReportPool.Report | src/stratis_cli/_actions/_report_pool.py:46-55 | the stopped reporter is used exactly when the stopped flag is set |
| Signature.SigType.Serialize | src/stratis_cli/_dbus/_signature/_parsing.py:74-88 | every type's signature is non-empty text: a code, `a` and an element, `a{` key value `}`, or `(` fields `)` |
| Signature.FirstChar | src/stratis_cli/_dbus/_signature/_parsing.py:56-88 | a complete type begins with a code, `a` or `(`, never with a brace or a closing parenthesis |
| Signature.ParseType | src/stratis_cli/_dbus/_signature/_parsing.py:72-88 | whatever is read is a complete type of the grammar whose signature is the text consumed |
| Signature.ParseFields | src/stratis_cli/_dbus/_signature/_parsing.py:84-86 | a struct holds one or more complete types followed by `)` |
| Signature.ParseTypes | src/stratis_cli/_dbus/_signature/_parsing.py:89 | the types read make up the whole text |
| Signature.ParseSignature | src/stratis_cli/_dbus/_signature/_parsing.py:89 | an accepted signature is one or more complete types whose signatures make up the whole text |
| Signature.Parse | src/stratis_cli/_dbus/_signature/_parsing.py:89 | the accepted types make up the text once whitespace is removed |
| Signature.WhitespaceIgnored | src/stratis_cli/_dbus/_signature/_parsing.py:89 | inserting whitespace anywhere does not change the parse |
| Signature.NoWhitespaceParsedAsIs | src/stratis_cli/_dbus/_signature/_parsing.py:89 | text without whitespace is parsed as it stands |
| Signature.ParseTypeComplete | src/stratis_cli/_dbus/_signature/_parsing.py:72-88 | every complete type is read back from its signature, whatever text follows it |
| Signature.ParseFieldsComplete | src/stratis_cli/_dbus/_signature/_parsing.py:84-86 | the fields of every struct are read back, whatever follows its `)` |
| Signature.ParseTypesComplete | src/stratis_cli/_dbus/_signature/_parsing.py:89 | a list of complete types is read back from its concatenated signatures |
| Signature.ParseSignatureExact | src/stratis_cli/_dbus/_signature/_parsing.py:89 | the parser accepts exactly the non-empty concatenations of complete types |
| Signature.ParseSignatureRoundTrip | src/stratis_cli/_dbus/_signature/_parsing.py:89 | a non-empty list of complete types parses back to itself |
| Signature.ParenStep | src/stratis_cli/_dbus/_signature/_parsing.py:84-86 | a `(` starts a struct whose fields follow |
| Signature.DictStep | src/stratis_cli/_dbus/_signature/_parsing.py:74-81 | `a{` and a code start a dictionary array whose value type follows |
| Signature.RejectedIncomplete | src/stratis_cli/_dbus/_signature/_parsing.py:81-86 | a lone `a` and an empty struct are rejected |
| Signature.RejectedBareDictEntry | src/stratis_cli/_dbus/_signature/_parsing.py:74-88 | a dictionary entry outside an array is rejected |
| Signature.RejectedDictEntryWithoutValue | src/stratis_cli/_dbus/_signature/_parsing.py:74-78 | a dictionary entry without a value type is rejected |
| Signature.RejectedEmptyDictEntry | src/stratis_cli/_dbus/_signature/_parsing.py:74-78 | a dictionary entry without a key is rejected |
| Signature.RejectedDictEntryWithTwoValues | src/stratis_cli/_dbus/_signature/_parsing.py:74-78 | a dictionary entry with two value types is rejected |
| Signature.RejectedContainerKey | src/stratis_cli/_dbus/_signature/_parsing.py:74-78 | a dictionary entry whose key is a container is rejected |
| StratisdConstants.Lookup | src/stratis_cli/_stratisd_constants.py:44 | the first member with the value, or none exactly when no member has it |
| StratisdConstants.ValueToName | src/stratis_cli/_stratisd_constants.py:22-57 | as written: a known value prints as its decimal number, because `str()` of an `IntEnum` member is its value; a value no member has gives "???" when terse and the "Unknown value (n) for Class constant" message otherwise |
| StratisdConstants.MemberString | src/stratis_cli/_stratisd_constants.py:44 | `str()` of a member is decimal text that reads back as the member's value and holds neither `.` nor `_` |
| StratisdConstants.ValueToNameIntended | src/stratis_cli/_stratisd_constants.py:44-54 | the member name after the last `.` with underscores turned into spaces for a known value; unknown values as written |
| StratisdConstants.ValueToNameShowsNumber | src/stratis_cli/_stratisd_constants.py:44 | return code 2 of the errors enumeration prints as "2" as written and as "ALREADY EXISTS" once corrected |
| StratisdConstants.ValueToNameKnown | src/stratis_cli/_stratisd_constants.py:44 | once corrected, a known value gives its member's name with underscores turned into spaces, and the text holds no underscore |
| StratisdConstants.BlockDevTierValues | src/stratis_cli/_stratisd_constants.py:88-97 | Data is 0 and Cache is 1, distinct, and each is found in the enumeration |
| StratisdConstants.ValueToNameUnknownExamples | src/stratis_cli/_stratisd_constants.py:49-54 | return code 6 of the errors enumeration prints as "???" or as "Unknown value (6) for StratisdErrors constant" |
| StratisdVersion.TupleLtIrreflexive | src/stratis_cli/_actions/_stratisd_version.py:20 | no version tuple is below itself |
| StratisdVersion.TupleLtTransitive | src/stratis_cli/_actions/_stratisd_version.py:20 | the tuple order is transitive |
| StratisdVersion.TupleLtTrichotomy | src/stratis_cli/_actions/_stratisd_version.py:20 | any two distinct tuples are ordered one way or the other |
| StratisdVersion.ParseInts | src/stratis_cli/_actions/_stratisd_version.py:19 | every piece read as an integer, or the first piece that is not one |
| StratisdVersion.ParseVersion | src/stratis_cli/_actions/_stratisd_version.py:19 | one integer per dot-separated component |
| StratisdVersion.RenderedComponent | src/stratis_cli/_actions/_stratisd_version.py:19 | a rendered component holds no dot and reads back as itself |
| StratisdVersion.ParseVersionRoundTrip | src/stratis_cli/_actions/_stratisd_version.py:19 | reading the dotted rendering of a non-empty version gives the version back |
| StratisdVersion.CheckVersion | src/stratis_cli/_actions/_stratisd_version.py:6-23 | the check passes exactly when the version reads as integers and lies between the bounds inclusive; a version outside them is an error carrying it and both bounds |
| StratisdVersion.CheckRenderedVersion | src/stratis_cli/_actions/_stratisd_version.py:18-23 | a rendered version passes exactly when it is neither below the minimum nor above the maximum |
| StratisdVersion.SupportedBounds | src/stratis_cli/_actions/_constants.py:25-27 | with bounds 3.8.2 and 4.0.0, the bounds and 3.9 pass, 3.8.1 and 4.0.1 do not, and the minimum is below the maximum |
| Util.Construct | src/stratis_cli/_actions/_util.py:42-44 | the wrapper applied to each found object, in order |
| Util.GetObjects | src/stratis_cli/_actions/_util.py:21-55 | without a pool name every object of the kind; with one, success exactly when one pool has that name, and then the objects of the kind whose Pool is that pool |
| Util.GetObjectsScoped | src/stratis_cli/_actions/_util.py:44-54 | with a pool name, the objects are exactly those of the kind whose Pool property is the named pool's object path |
| Sorting.StrLeTotal | src/stratis_cli/_actions/_blockdev.py:82 | any two strings are comparable |
| Sorting.StrLeTransitive | src/stratis_cli/_actions/_blockdev.py:82 | string order is transitive |
| Sorting.StrLeAntisymmetric | src/stratis_cli/_actions/_blockdev.py:82 | strings ordered both ways are equal |
| Sorting.KeyLeTotal | src/stratis_cli/_actions/_list_filesystem.py:154 | any two key tuples are comparable |
| Sorting.KeyLeTransitive | src/stratis_cli/_actions/_list_filesystem.py:154 | tuple order is transitive |
| Sorting.Insert | src/stratis_cli/_actions/_blockdev.py:82 | inserting keeps the list sorted and adds exactly the element |
| Sorting.SortBy | src/stratis_cli/_actions/_blockdev.py:82 | the result is sorted by the key and is a permutation of the input |
| Sorting.SortByStable | src/stratis_cli/_actions/_blockdev.py:82 | `sorted` is stable: the elements with any one key keep their relative order |
| Sorting.SortedUnique | src/stratis_cli/_actions/_list_filesystem.py:154 | under a key that tells elements apart, the sorted order of a multiset is unique whatever the input order |
| Sorting.Map | src/stratis_cli/_actions/_list_pool.py:145 | one image per element, in order |
| Sorting.MapMultiset | src/stratis_cli/_actions/_list_pool.py:145 | mapping a permuted list gives a permuted result |
| Text.ParsePyInt | src/stratis_cli/_actions/_stratisd_version.py:19 | integer text with optional sign, underscores between digits and surrounding ASCII white space is read as the signed value of its digits; anything else is rejected |
| Text.ParseIntToString | src/stratis_cli/_actions/_stratisd_version.py:19 | reading the decimal rendering of an integer gives the integer back |
| Text.UuidHex | src/stratis_cli/_actions/_report_pool.py:99 | thirty-two lower-case hex digits denoting the UUID |
| Text.UuidHexInjective | src/stratis_cli/_actions/_pool.py:692 | distinct UUIDs have distinct hex renderings |
| Text.UuidStringInjective | src/stratis_cli/_constants.py:114-115 | distinct UUIDs render distinctly in the hyphenated form an id prints |
| Text.HexRoundTrip | src/stratis_cli/_actions/_report_pool.py:139 | every string of hex digits is the fixed-width rendering of its value |
| Text.SplitJoin | src/stratis_cli/_actions/_list_pool.py:356 | splitting a join restores the pieces when none contains the separator |

## Left out

- D-Bus transport: `get_object`, the generated proxy classes and their method and property calls are replaced by a snapshot and reply values.
- dbus_client_gen's search internals: a search is modelled as an order-preserving filter on interface and property equality.
- Terminal, file and process I/O: echo control in `get_pass`, the pipe and file handling in `get_passphrase_fd` and `start_pool`, running `lsblk`, printing, and exiting the program. Where the result is a command line or printed lines, those are the model's results.
- argparse wiring and the declarative subcommand tables. Only the actions and the namespace rewriting that feed the modelled checks are modelled.
- Foreign libraries are parameters: justbytes `Range` parsing and rendering, `size_triple`, wcwidth (character length is the `len` fallback), dateutil, `json.dumps`, `os.path.abspath` and pyparsing's result names.
- `UNKNOWN_VALUE_MARKER`, `SERVICE_UNKNOWN_ERROR`, `TOTAL_USED_FREE`, `get_property` and `PoolActionAvailability` are imported from modules that are not part of this model; they are parameters.
- `MetadataVersion` is not part of this model; its values are taken as V1 = 1 and V2 = 2.
- `PoolSelector` in `_actions/_utils.py` is not modelled; selection among stopped pools is modelled where the actions use it.
- The exception class hierarchy of `_errors.py` is not modelled. Each error is one datatype constructor carrying the values its message is built from.
- Error chains are finite and acyclic by construction, so a cyclic `__cause__`/`__context__` chain cannot be expressed.
- Attributes every Python class inherits from `object` are not modelled for the earlier client's generated classes.
- The Created date line of the filesystem detail view is not modelled, because it needs timezone formatting.
- The pure call-through action modules (`_top.py`, `_logical.py`, `_physical.py`, `_cache.py`, `_misc.py`, `_stratis.py`) are not modelled. Each only makes one call and checks its return code, as the modelled reply interpretation does.
- The `into_dbus_python` transformer is not modelled.
- Floating-point timeouts are not modelled: a float value of the environment variable is rejected before any arithmetic.
- Concurrency is not modelled, and neither is interrupt handling.
- ListFilesystem.DetailOf: when the used size is unknown, `total - used` fails inside justbytes' `Range` subtraction; the model records that failure as `SizeArithmetic("total - used")` and not the exception class or message the library raises.
- ActionUtils.ClevisValue: the Clevis config stays the JSON text the daemon sent, because `json.loads` (`_actions/_utils.py:135`) is a foreign parser; a malformed config is therefore not rejected.
- ActionUtils.ParseUuid: accepts only the form the daemon sends, lower-case hex digits with hyphens anywhere. Python's `UUID()` also takes upper case, braces, a `urn:uuid:` prefix and whatever `int(..., 16)` reads; those forms are not accepted by the model.
- Text.ParsePyInt: reads ASCII text only. Python's `int()` also takes non-ASCII decimal digits and non-ASCII white space, which are not modelled.
- Text.IsSpace: ASCII white space only (`\t`, `\n`, `\x0b`, `\x0c`, `\r`, `\x1c`-`\x1f`, space); the Unicode white space that `str.strip` also removes is not modelled.
- `_parser/_encryption.py` lines 82 and 106 name `BindActions.bind_clevis`, while `_actions/_bind.py` defines `bind_tang` and `bind_tpm`. The model follows `_bind.py`.
- Code over tests:
  - "01GiB" and "-0" are accepted, as the code does;
  - `error_from_str` fails where no class matches (Python's `StopIteration`) rather than returning None;
  - `PoolFeature` has only the members the code defines.

## Findings

| source | as written | input that shows it | evidently intended | confidence | as-written member | corrected member |
|---|---|---|---|---|---|---|
| src/stratis_cli/_actions/_pool.py:694-702 | the missing UUIDs are the requested hex strings minus a set of `UUID` objects, which never removes anything | a pool with one device `a`, extend-data requested for `a` and `b`: both are reported missing | only `b`, the requested UUID no device has, is reported | high; not executed | PoolActions.ExtendData | PoolActions.ExtendDataIntended |
| src/stratis_cli/_actions/_crypt.py:87-93 | the incoherence message is a plain string, not an f-string, so `{pool_id}` is printed literally | any encrypt whose reply reports OK but no change | the message names the pool's id | medium; not executed | Crypt.Conclude | Crypt.ConcludeIntended |
| src/stratis_cli/_stratisd_constants.py:44 | `str(klass(num))` of an `IntEnum` member is its decimal value on Python 3.11 and later (the package needs 3.12, see the `type` statement at `_alerts.py:212`), so the name part is the number | return code 2 of `StratisdErrors` prints as "2" | "ALREADY EXISTS", the member's name with spaces | high; not executed | StratisdConstants.ValueToName | StratisdConstants.ValueToNameIntended |
