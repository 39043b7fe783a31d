# asyncmiele local-protocol core, modelled in Dafny

asyncmiele talks to Miele appliances over their local HTTP API. Requests carry a
`MieleH256` HMAC signature header, and bodies are AES-CBC encrypted after space padding
to a 16-byte boundary. On top of that the DOP2 binary protocol addresses "leaves" by
(unit, attribute). This project models the following parts of the package:

- the DOP2 leaf decoder (`parse_leaf`) with its five fixed big-endian layouts and its raw
  fallback;
- the request codec: padding, the canonical signing string, the authorization header,
  IV derivation and response decryption. HMAC-SHA256 (RFC 2104, section 2) and AES-CBC
  (NIST SP 800-38A, section 6.2) are function parameters. Hex output follows RFC 4648,
  section 8;
- the stateful DOP2 tree explorer: its per-device caches, the batched sweep with its
  empty-streak stop rule, the unit order of `explore_device`, and the tree diff;
- the capability ledgers of `DeviceCapabilityDetector` and `DeviceProfile`;
- the DOP2 client helpers:
  - the leaf resource path, percent-encoded per RFC 3986, sections 2.1 and 2.3;
  - leaf reads and writes with detector registration;
  - the SF-value payload, `get_setting` and `set_setting`;
  - three-probe generation detection;
  - consumption statistics;
  - the first step of the primary program catalog;
- the program-selection serializer, the catalog helpers and the device-config validators.

Files:

| file | what it holds |
|---|---|
| `wrappers.dfy` | `Option` and `Result` |
| `binary.dfy` | bytes and the big-endian reference encoders `Be16` / `Be32` |
| `text.dfy`, `hex.dfy`, `utf8.dfy` | ASCII case, decimal text, Base16, UTF-8 |
| `models.dfy` | `DeviceCombinedState`, `SFValue`, `ConsumptionStats`, the generation type |
| `parser.dfy` | `parse_leaf` and its encoder partner |
| `crypto.dfy` | `utils/crypto.py` |
| `explorer_spec.dfy` | pure definitions the explorer is proved against: probes, the sweep, the unit order, the tree diff |
| `explorer.dfy` | the `DOP2Explorer` class and the injected leaf reader |
| `capabilities.dfy` | `capabilities.py` |
| `device_profile.dfy` | the capability and cache part of `DeviceProfile` |
| `device_config.dfy` | the two field validators of `MieleDeviceConfig` |
| `catalog.dfy` | `programs/catalog.py` |
| `leaf_path.dfy` | `_build_leaf_path`: percent-encoding and a parser for the path it builds |
| `client.dfy` | `DOP2Client`, its transport and the generation detector |

Python exceptions become `Err` values of a `Result`. Objects whose fields the source
updates in place become classes:
- the explorer, the leaf reader, the capability detector, the device profile and the DOP2
  client;
- the HTTP transport, which is a log of requests plus a function giving each request's answer;
- the generation detector, which is a set of registered (device, unit, attribute) triples
  plus a classification function.

The explorer also keeps two ghost logs, `probes` and `visits`, which record every
`explore_leaf` and `explore_unit` call that returned.

## Model

| member | source | states |
|---|---|---|
| LeafParser.U16 | asyncmiele/dop2/parser.py:8-9 | `_u16` of two bytes lies in [0, 65535] and its big-endian encoding gives back the two bytes |
| LeafParser.U32 | asyncmiele/dop2/parser.py:12-14 | `_u32` of four bytes lies in [0, 2^32-1] and its big-endian encoding gives back the four bytes |
| LeafParser.U16OfBe16 | asyncmiele/dop2/parser.py:8-9 | decoding the big-endian encoding of any u16 gives the value back |
| LeafParser.U32OfBe32 | asyncmiele/dop2/parser.py:12-14 | decoding the big-endian encoding of any u32 gives the value back |
| LeafParser.ParseLeaf | asyncmiele/dop2/parser.py:29-68 | fails exactly when the leaf is one of 2/256, 2/105, 2/119, 2/138, 2/6195 and the payload is shorter than 6, 10, 4, 4, 8 bytes respectively |
| LeafParser.EncodeLeaf | asyncmiele/dop2/parser.py:29-65 | an encoded value of a decoded leaf has exactly that leaf's minimum length |
| LeafParser.ParseEncoded | asyncmiele/dop2/parser.py:29-68 | decoding the encoding of any in-range value gives the value back, whatever bytes follow it (round trip) |
| LeafParser.EncodeParsed | asyncmiele/dop2/parser.py:29-68 | every decoded value is in range and re-encodes to the payload's first 6/10/4/8 bytes; an unknown leaf decodes to the raw payload (round trip in the other direction) |
| LeafParser.TrailingBytesIgnored | asyncmiele/dop2/parser.py:30-64 | appending bytes to a long-enough payload does not change the decoded value |
| LeafParser.UnknownLeafIsRaw | asyncmiele/dop2/parser.py:67-68 | every other (unit, attribute) returns the payload unchanged and never fails |
| LeafParser.CombinedStateExample | asyncmiele/dop2/parser.py:29-35 | `00 01 00 02 00 03` on 2/256 decodes to (1, 2, 3) |
| LeafParser.SettingExample | asyncmiele/dop2/parser.py:37-45 | `00 0A 00 14 00 01 00 64 00 32` on 2/105 decodes to (10, 20, 1, 100, 50) |
| Crypto.PadPayload | asyncmiele/utils/crypto.py:137-142 | for a positive block size: the output length is a multiple of it, the input is a prefix, fewer than blocksize bytes are added and all are 0x20, and aligned input (empty input included) is returned unchanged. A negative block size returns the input unchanged, as Python's floored remainder gives a negative pad count |
| Crypto.RStripSpaces | asyncmiele/utils/crypto.py:160 | `rstrip(b"\x20")` returns a prefix that does not end in a space, and only spaces were removed |
| Crypto.StripAppendedSpaces | asyncmiele/utils/crypto.py:142 | stripping any run of appended spaces from input that does not end in a space gives the input back |
| Crypto.StripPadded | asyncmiele/utils/crypto.py:137-142 | stripping trailing spaces from `pad_payload(p)` gives `p` back whenever `p` does not end in a space |
| Crypto.HmacSignature | asyncmiele/utils/crypto.py:65-68 | 64 upper-case hex digits that decode to the HMAC of the payload under the key |
| Crypto.BuildAuthHeader | asyncmiele/utils/crypto.py:71-135 | fails only when the canonical header text is not ASCII. Otherwise the digest is HMAC(key, upper(method) `\n` host+resource `\n` content type `\n` accept `\n` date `\n` + body bytes), where no body gives no bytes and a text body gives its UTF-8 bytes. The IV is the digest's first 16 bytes and the header is `MieleH256 ` + lower-hex(group id) + `:` + upper-hex(digest) |
| Crypto.AuthHeaderFields | asyncmiele/utils/crypto.py:134 | the header splits back into its prefix, the group id, the colon and the digest, at fixed offsets |
| Crypto.DecryptAndUnpad | asyncmiele/utils/crypto.py:155-160 | succeeds exactly when decryption does; the result is the decrypted bytes less a trailing run of spaces, and it never ends in a space |
| Crypto.DecryptResponse | asyncmiele/utils/crypto.py:163-184 | decrypts with the first half of the group key and the first half of the signature. Any failure is a DecryptionError and never partial output |
| Crypto.PaddedRoundTrip | asyncmiele/utils/crypto.py:137-160 | for a cipher whose decryption inverts encryption, decrypt_and_unpad(encrypt(pad(p))) is `p` when `p` does not end in a space |
| Crypto.ResponseRoundTrip | asyncmiele/utils/crypto.py:163-184 | a padded body encrypted under the half key and half signature decrypts back to itself through `decrypt_response` |
| Crypto.PadExamples | asyncmiele/utils/crypto.py:137-142 | empty input stays empty; three bytes gain 13 spaces; a negative block size leaves three bytes unchanged |
| Crypto.EncryptPayload | asyncmiele/utils/crypto.py:145-149 | AES-CBC without padding: only a whole number of 16-byte blocks can be encrypted, and such a plaintext is handed to the cipher unchanged |
| Crypto.PaddedEncrypts | asyncmiele/utils/crypto.py:137-149 | the output of `pad_payload` is always accepted by `encrypt_payload`, so only the cipher itself can refuse it |
| Text.IntToDecimalRoundTrip | asyncmiele/dop2/client.py:117 | the decimal text of every integer in the path parses back to the integer |
| Hex.FromHexToHex | asyncmiele/utils/crypto.py:68 | hex text of either case decodes back to its bytes |
| Utf8.EncodeChar | asyncmiele/utils/crypto.py:116 | the UTF-8 encoding of one code point: 1, 2, 3 or 4 bytes exactly for code points below U+0080, U+0800, U+10000 and above; the lead byte announces the length; continuation bytes follow; and the bytes decode back to the code point |
| Utf8.EncodeAscii | asyncmiele/utils/crypto.py:116 | ASCII text encodes to its own code points |
| Utf8.EncodeInjective | asyncmiele/utils/crypto.py:116 | two strings with the same UTF-8 encoding are equal |
| TreeExplorer.LeafReader.ReadLeaf | asyncmiele/dop2/explorer.py:136 | one read request is logged and the oracle's answer for it is returned |
| TreeExplorer.ProbeOutcome | asyncmiele/dop2/explorer.py:134-152 | a leaf is found exactly when the read returned bytes and they decoded, and then it is the decoded value; otherwise the result is None |
| TreeExplorer.Explorer.constructor | asyncmiele/dop2/explorer.py:48-67 | empty caches and statistics, caching on |
| TreeExplorer.Explorer.ClearCache | asyncmiele/dop2/explorer.py:69-85 | a non-empty device id drops that device from both caches and the statistics; no id or an empty one clears all three |
| TreeExplorer.Explorer.DisableCache | asyncmiele/dop2/explorer.py:87-89 | caching off, nothing else changed |
| TreeExplorer.Explorer.EnableCache | asyncmiele/dop2/explorer.py:91-93 | caching on, nothing else changed |
| TreeExplorer.Explorer.ExploreLeaf | asyncmiele/dop2/explorer.py:95-152 | with no client: NoClient and nothing changes. With caching on, a cached success is returned and a cached failure gives None, both without a read. Otherwise exactly one read with the given indices is issued. A hit is cached as a success only with caching on; a failed read or decode gives None and is cached as a failure only with caching on. The indices are not part of the key, and no key is ever both a success and a failure |
| TreeExplorer.Explorer.ReadAndCache | asyncmiele/dop2/explorer.py:128-152 | the uncached branch of `explore_leaf`: one read, and the outcome cached by whether caching is on |
| TreeExplorer.Explorer.ProbeAll | asyncmiele/dop2/explorer.py:183-191 | one gathered batch: `explore_leaf` on each attribute in order, results in order |
| TreeExplorer.StoreHits | asyncmiele/dop2/explorer.py:213-218 | the result loop: the leaf map gains every hit of the batch under its attribute, and the batch is reported all-empty exactly when no probe hit |
| TreeExplorer.Explorer.KnownPhase | asyncmiele/dop2/explorer.py:177-195 | probes exactly `KNOWN_LEAVES[unit]` in order and keeps the hits |
| TreeExplorer.Explorer.SweepBatch | asyncmiele/dop2/explorer.py:206-225 | one loop iteration. It probes `min(concurrency, max_attribute - attr + 1)` consecutive attributes from `attr`. The next attribute is `attr` plus the batch size. The streak grows by the batch size on an all-empty batch and resets to 0 otherwise |
| TreeExplorer.Explorer.Sweep | asyncmiele/dop2/explorer.py:203-225 | the sweep probes attributes 1, 2, ... contiguously in whole batches, and it ends exactly where `attr > max_attribute` or the streak reaches 50 first holds |
| TreeExplorer.Explorer.ExploreUnit | asyncmiele/dop2/explorer.py:154-227 | the probes of one call are the known batch, then (unless `known_only`) a finished sweep, and the result is exactly the hits among them |
| TreeExplorer.Explorer.FinishUnit | asyncmiele/dop2/explorer.py:197-227 | after the known batch: return it under `known_only`, otherwise append the finished sweep |
| TreeExplorer.Explorer.ExploreDevice | asyncmiele/dop2/explorer.py:229-304 | the device's statistics are reset. The units explored are exactly `UnitOrder(max_unit)` in that order. Each visit is a complete `explore_unit` run whose hits are that unit's leaf map, and those runs, one after another, are exactly the probes the call made. The tree's nodes are the units with non-empty leaf maps, and `leaves_found` is the sum of their leaf counts |
| TreeExplorer.Explorer.WalkUnits | asyncmiele/dop2/explorer.py:264-294 | both unit loops together walk `UnitOrder(max_unit)`, each visit justified by its own unit run over the probes made, and build `NodesOf` the visits |
| TreeExplorer.Explorer.WalkCommonUnits | asyncmiele/dop2/explorer.py:264-278 | the first loop visits the common units that are at most `max_unit`, in list order; each visit's leaf map is the hits of its own run, and the runs are the probes made |
| TreeExplorer.Explorer.CommonUnitStep | asyncmiele/dop2/explorer.py:265-278 | one iteration of the first loop: a unit above `max_unit` is skipped, any other is visited and its run appended |
| TreeExplorer.Explorer.WalkOtherUnits | asyncmiele/dop2/explorer.py:280-294 | the second loop visits 1..max_unit ascending, skipping common units and units already in the tree; each visit is justified by its own run |
| TreeExplorer.Explorer.OtherUnitStep | asyncmiele/dop2/explorer.py:281-294 | one iteration of the second loop: skip, or visit and append the run |
| TreeExplorer.Explorer.VisitUnit | asyncmiele/dop2/explorer.py:269-278 | one `explore_unit` call: its probes are a complete unit run, the visit's leaf map is exactly the hits among them, and a node is stored only when that map is non-empty |
| TreeExplorer.CountLeaves | asyncmiele/dop2/explorer.py:301 | the loop computes the leaf total of the tree's nodes |
| TreeExplorer.RepeatedLeafReadsOnce | asyncmiele/dop2/explorer.py:120-126 | on a fresh explorer, two `explore_leaf` calls for one leaf issue one read and agree, whatever the device answers |
| TreeExplorer.KnownOnlyRun | asyncmiele/dop2/explorer.py:197-199 | a `known_only` call's probes are exactly the known batch |
| TreeExplorer.UnitRunOfParts | asyncmiele/dop2/explorer.py:188-227 | the known batch followed by a finished sweep is a complete `explore_unit` run |
| ExplorerSpec.Batch | asyncmiele/dop2/explorer.py:209-210 | a gathered batch pairs each attribute with its result, in order |
| ExplorerSpec.CollectKeys | asyncmiele/dop2/explorer.py:214-216 | an attribute is in the leaf map exactly when one of its probes hit, and then it holds a hit's value |
| ExplorerSpec.SweepAfterBatch | asyncmiele/dop2/explorer.py:206-225 | one more whole batch extends a sweep state by one loop iteration |
| ExplorerSpec.SweepStep | asyncmiele/dop2/explorer.py:206-225 | the sweep loop's invariant survives one batch |
| ExplorerSpec.SweepAfterShape | asyncmiele/dop2/explorer.py:206-225 | after `n` more probed attributes the next attribute has advanced by `n`; it never passes `max_attribute + 1`, and a probe happens only while `attr <= max_attribute` |
| ExplorerSpec.EmptySweepStreak | asyncmiele/dop2/explorer.py:213-222 | with no hits, the streak grows by the number of attributes probed and stays at most `MAX_EMPTY_LEAVES - 1 + concurrency` |
| ExplorerSpec.SweepWithinMax | asyncmiele/dop2/explorer.py:206-208 | a finished sweep never probes past `max_attribute` |
| ExplorerSpec.EmptySweepBound | asyncmiele/dop2/explorer.py:206-225 | if every probe fails, the sweep stops after at most `MAX_EMPTY_LEAVES + concurrency - 1` attributes and at least 50 (or `max_attribute`) |
| ExplorerSpec.KnownOnlyLeaves | asyncmiele/dop2/explorer.py:177-199 | with `known_only`, the leaves are exactly the known attributes whose probe hit |
| ExplorerSpec.SweepProbesWithinMax | asyncmiele/dop2/explorer.py:203-225 | every probe of the sweep part of a unit run lies in [1, max_attribute] |
| ExplorerSpec.UpTo | asyncmiele/dop2/explorer.py:265-267 | the common units kept are exactly those at most `max_unit` |
| ExplorerSpec.OthersUpTo | asyncmiele/dop2/explorer.py:281-283 | the other units are exactly 1..n minus the common units |
| ExplorerSpec.UnitOrderVisitsEachOnce | asyncmiele/dop2/explorer.py:264-294 | `explore_device` explores each unit of [1, max_unit] exactly once, the common units first |
| ExplorerSpec.NodesOfShape | asyncmiele/dop2/explorer.py:277-294 | a unit is a node exactly when its visit found leaves, and the node holds that unit |
| ExplorerSpec.DeviceLeafTotal | asyncmiele/dop2/explorer.py:298-302 | the leaf count over the tree's nodes equals the sum of the leaf counts of the visits |
| ExplorerSpec.TreeLeavesProbed | asyncmiele/dop2/explorer.py:264-294 | every leaf of the device tree is the value that some probe of that unit and attribute returned during the walk |
| ExplorerSpec.NodeOfVisit | asyncmiele/dop2/explorer.py:277-294 | each node holds the leaf map of some visit to its unit |
| ExplorerSpec.WalkRunsStep | asyncmiele/dop2/explorer.py:269-294 | a visit justified by its own run extends a justified walk, and its probes follow the walk's |
| ExplorerSpec.FoundLeavesOfWalk | asyncmiele/dop2/explorer.py:301 | over visits to distinct units, the node leaf total equals the sum over visits |
| ExplorerSpec.TotalLeavesRemove | asyncmiele/dop2/explorer.py:301 | the leaf total splits into one node plus the rest |
| ExplorerSpec.CompareTrees | asyncmiele/dop2/explorer.py:427-431 | the unit lists partition each tree's units into only-here and common |
| ExplorerSpec.CompareTreesLeaves | asyncmiele/dop2/explorer.py:441-458 | for a common unit, the three leaf lists are the set differences and intersection, present only when non-empty |
| ExplorerSpec.CompareTreesValues | asyncmiele/dop2/explorer.py:460-471 | `different_values` lists exactly the common attributes with unequal values, and only non-empty lists appear |
| ExplorerSpec.CompareWithSelf | asyncmiele/dop2/explorer.py:408-473 | a tree compared with itself shows no differences |
| ExplorerSpec.CompareSymmetric | asyncmiele/dop2/explorer.py:408-473 | swapping the trees swaps the one-sided parts and keeps the shared ones |
| Capabilities.InitialCapabilities | asyncmiele/capabilities.py:105-115 | the four appliance types get their default set, and every other type gets {STATE_REPORTING} |
| Capabilities.CapabilityDetector.constructor | asyncmiele/capabilities.py:97-103 | both ledgers empty |
| Capabilities.CapabilityDetector.GetCapabilities | asyncmiele/capabilities.py:117-134 | an unseen device is seeded from its type's defaults; a known one is never re-seeded; the supported set is returned |
| Capabilities.CapabilityDetector.RecordCapabilityTest | asyncmiele/capabilities.py:136-168 | after success `c` is supported and not failed; after failure the reverse. A first-touched device starts empty. No other capability or device changes, and the ledgers stay disjoint |
| Capabilities.CapabilityDetector.HasCapability | asyncmiele/capabilities.py:170-184 | false for an unknown device, otherwise membership |
| Capabilities.CapabilityDetector.HasAnyCapability | asyncmiele/capabilities.py:186-200 | false for an unknown device, otherwise some given capability is supported |
| Capabilities.CapabilityDetector.HasAllCapabilities | asyncmiele/capabilities.py:202-216 | false for an unknown device, even with no arguments; otherwise every given capability is supported |
| Capabilities.CapabilityDetector.ResetCapabilities | asyncmiele/capabilities.py:218-231 | the device is forgotten: no capability holds and no test has failed |
| Capabilities.CapabilityDetector.FailedTests | asyncmiele/capabilities.py:233-243 | the device's failed set, or empty for an unknown device |
| Capabilities.CapabilityDetector.NeverBoth | asyncmiele/capabilities.py:117-168 | under the preserved invariant, no capability is both supported and failed |
| DeviceProfiles.DeviceProfile.HasCapability | asyncmiele/models/device_profile.py:71-81 | true exactly when the supported bits and the flag share a bit, so NONE is always false |
| DeviceProfiles.DeviceProfile.MarkCapability | asyncmiele/models/device_profile.py:83-101 | success sets the flag's bits and drops the flag from the failed set; failure adds it and clears its bits. Afterwards `has_capability` of the flag equals the outcome, for a non-empty flag. Other bits and other failed entries are unchanged, and single-capability marks keep the failed and supported entries separate |
| DeviceProfiles.DeviceProfile.CacheValue | asyncmiele/models/device_profile.py:103-111 | after `cache_value(k, v)`, `get_cached_value(k)` is `v` |
| DeviceProfiles.DeviceProfile.GetCachedValue | asyncmiele/models/device_profile.py:113-124 | the cached value, or the caller's default for an absent key |
| DeviceProfiles.DeviceProfile.ClearCache | asyncmiele/models/device_profile.py:126-128 | every lookup afterwards returns its default |
| DeviceProfiles.CombinedFlagOverlap | asyncmiele/models/device_profile.py:83-101 | marking a combined flag can leave a failed single flag whose bit is supported |
| DeviceConfig.ValidateDeviceId | asyncmiele/models/device_config.py:68-74 | accepts exactly twelve ASCII digits, optionally followed by one newline, and returns the value unchanged; any other string fails with the source's message |
| DeviceConfig.ValidateHost | asyncmiele/models/device_config.py:76-83 | fails exactly on hosts shorter than three characters (the empty host included) and returns any other host unchanged |
| DeviceConfig.DeviceIdExamples | asyncmiele/models/device_config.py:68-83 | sample ids and hosts on both sides of each rule, including the trailing-newline quirk |
| ProgramCatalog.ValidateOption | asyncmiele/programs/catalog.py:61-73 | an option is valid exactly when its id and every allowed value fit in u16 and its default is non-negative |
| ProgramCatalog.ValidateProgram | asyncmiele/programs/catalog.py:79 | a program is valid exactly when its id fits in u16 |
| ProgramCatalog.OptionById | asyncmiele/programs/catalog.py:83-87 | the first option with the id; KeyError exactly when there is none |
| ProgramCatalog.ProgramsByName | asyncmiele/programs/catalog.py:101-104 | keys are exactly the names present, and each maps to the last program with that name |
| ProgramCatalog.ProgramsById | asyncmiele/programs/catalog.py:106-109 | keys are exactly the ids present, and each maps to the last program with that id |
| ProgramCatalog.ResourceFileName | asyncmiele/programs/catalog.py:116-118 | the type lower-cased with spaces turned into underscores, then `.json` |
| ProgramCatalog.EncodeU16 | asyncmiele/programs/catalog.py:171-175 | fails exactly outside [0, 0xFFFF]; otherwise the two big-endian bytes, which decode back to the value |
| ProgramCatalog.BuildDop2Selection | asyncmiele/programs/catalog.py:178-221 | the loop builds exactly `SelectionPayload` |
| ProgramCatalog.AppendOptions | asyncmiele/programs/catalog.py:208-215 | the option loop appends the entries of the options in order and pops the chosen values, or stops at the first error |
| ProgramCatalog.AppendOption | asyncmiele/programs/catalog.py:209-215 | one option: the chosen value or the default, missing value and range errors, entry bytes |
| ProgramCatalog.EntriesOk | asyncmiele/programs/catalog.py:208-215 | the loop succeeds exactly when every option id and value fits in u16 and has a value; the choices left over are those not among the options |
| ProgramCatalog.EntriesBytes | asyncmiele/programs/catalog.py:208-215 | entry `i` is u16(option id) followed by u16(value), four bytes each, in `program.options` order |
| ProgramCatalog.SelectionLayout | asyncmiele/programs/catalog.py:204-219 | the body succeeds exactly when the program id, every option id and value fit and no unknown option was chosen. It is u16(program id) followed by the option entries, 2 + 4 times the number of options long |
| ProgramCatalog.SelectionPayload | asyncmiele/programs/catalog.py:221 | the payload is the body padded with spaces: a multiple of 16 long, with the body as its prefix |
| ProgramCatalog.SelectionExample | asyncmiele/programs/catalog.py:178-219 | program 1 with temperature 60 and spin 1600 serializes to `00 01 00 0a 00 3c 00 0b 06 40` |
| LeafPath.QuoteBytes | asyncmiele/dop2/client.py:117 | `quote(safe='')` of bytes takes one to three characters per byte, and every character is RFC 3986 unreserved or `%` |
| LeafPath.Quote | asyncmiele/dop2/client.py:117 | the quoted id contains only unreserved characters and `%` |
| LeafPath.PercentDecodeQuote | asyncmiele/dop2/client.py:117 | percent-decoding the quoted bytes gives them back |
| LeafPath.QuoteRoundTrip | asyncmiele/dop2/client.py:117 | percent-decoding a quoted id gives its UTF-8 bytes |
| LeafPath.QuoteUnreserved | asyncmiele/dop2/client.py:117 | an id made only of unreserved characters is not changed by quoting |
| LeafPath.BuildLeafPath | asyncmiele/dop2/client.py:103-117 | the path holds only unreserved characters, `%` escapes and URL punctuation, so it needs no further escaping; `ParseBuiltPath` reads every field back from it |
| LeafPath.ParseBuiltPath | asyncmiele/dop2/client.py:103-117 | parsing a built leaf path gives back the id's bytes, the unit, the attribute and both indices |
| LeafPath.LeafPathInjective | asyncmiele/dop2/client.py:103-117 | different leaf addresses never share a path: equal paths force equal device ids and equal numbers |
| LeafPath.LeafPathExample | asyncmiele/dop2/client.py:117 | `device123`, 2, 256, 1, 2 builds `/Devices/device123/DOP2/2/256?idx1=1&idx2=2` |
| Dop2Client.Transport.GetRaw | asyncmiele/dop2/client.py:78 | a GET is logged and the transport's answer for it returned |
| Dop2Client.Transport.PutRequest | asyncmiele/dop2/client.py:98 | a PUT is logged and its acceptance returned |
| Dop2Client.GenerationDetector.RegisterLeaf | asyncmiele/dop2/client.py:81 | adds the triple to the registered set |
| Dop2Client.GenerationDetector.AvailableLeaves | asyncmiele/dop2/client.py:171 | exactly the (unit, attribute) pairs registered for the device |
| Dop2Client.Dop2Client.ReadLeaf | asyncmiele/dop2/client.py:63-83 | one GET of the built path; the leaf is registered exactly when the GET returned bytes |
| Dop2Client.Dop2Client.WriteLeaf | asyncmiele/dop2/client.py:85-101 | one PUT of the payload to the built path; the leaf is registered exactly when the PUT was accepted |
| Dop2Client.ReadOutcome | asyncmiele/dop2/client.py:119-134 | `get_parsed` fails on a failed read or a failed decode, and otherwise is the decoded leaf |
| Dop2Client.Dop2Client.GetParsed | asyncmiele/dop2/client.py:119-134 | one read of the leaf, then its decoding |
| Dop2Client.SettingOf | asyncmiele/dop2/client.py:372-375 | passes only an SFValue and rejects every other decoded leaf |
| Dop2Client.SettingReadIff | asyncmiele/dop2/client.py:362-375 | `get_setting` succeeds exactly when the 2/105 read returns at least 10 bytes, and then its fields are the five u16s. The not-an-SFValue error can never occur |
| Dop2Client.Dop2Client.GetSetting | asyncmiele/dop2/client.py:362-375 | reads leaf 2/105 with idx1 = sf_id and applies the SFValue check |
| Dop2Client.SfValuePayload | asyncmiele/dop2/client.py:136-147 | four bytes, u16(sf_id) then u16(value), which decode back to both; an out-of-range argument fails |
| Dop2Client.SfValuePayloadExample | asyncmiele/dop2/client.py:146 | (100, 15) gives `00 64 00 0F` |
| Dop2Client.Dop2Client.SetSetting | asyncmiele/dop2/client.py:377-391 | if the setting read fails, or `new_value` is outside [minimum, maximum], there is no write, and out of range gives the ValueError. Otherwise the payload is written to 2/105 with idx1 = sf_id, and the result is whether the PUT was accepted. The leaf 2/105 is registered with the detector exactly when the read answered, since a PUT only follows an answered read |
| Dop2Client.Dop2Client.ProbeGenerationLeaves | asyncmiele/dop2/client.py:174-191 | exactly three GETs: (2,256), (14,1570), (3,1000) in that order. Failures are swallowed, and only the probes that answered are registered |
| Dop2Client.ProbeHitsAt | asyncmiele/dop2/client.py:174-191 | the registered probes, written out probe by probe |
| Dop2Client.HitsOfThree | asyncmiele/dop2/client.py:174-191 | three reads in a row whose failures are swallowed register exactly the leaves whose read answered |
| Dop2Client.Dop2Client.DetectGeneration | asyncmiele/dop2/client.py:161-194 | no request when the detector already holds leaves for the device. Otherwise the three probes run, the device afterwards has only probed leaves, and the detector decides on them |
| Dop2Client.ProbedLeavesOnly | asyncmiele/dop2/client.py:171-194 | a device with nothing registered that gains only probe hits holds only probe leaves |
| Dop2Client.Dop2Client.GetConsumptionStats | asyncmiele/dop2/client.py:319-360 | three reads (2/119, 2/138, 2/6195) in order; the result is the statistics as the code computes them; the detector gains exactly the leaves whose read answered |
| Dop2Client.ConsumptionAsWrittenIsEmpty | asyncmiele/dop2/client.py:333-353 | as written, every field is None whatever the device answers |
| Dop2Client.ConsumptionDropsHours | asyncmiele/dop2/client.py:333-338 | a valid 2/119 reading of 1000 hours is dropped as written and kept by the corrected function |
| Dop2Client.ConsumptionPerField | asyncmiele/dop2/client.py:328-360 | corrected: each field is set exactly when its own read returns enough bytes, and then holds the decoded value; one failure does not affect the others |
| Dop2Client.PrimaryCatalogStart | asyncmiele/dop2/client.py:225-230 | a response that is not a mapping or lacks `programIds` gives the format error; an empty list gives the empty catalog; a non-empty list goes on to the program reads |
| Dop2Client.Dop2Client.ProgramCatalogPrimary | asyncmiele/dop2/client.py:213-230 | reads 2/1584 once and always fails: with InvalidFormat when the read answered (the decoder returns raw bytes, which are not a mapping), and with the request failure otherwise; 2/1584 is registered exactly when the read answered |

## Left out

- `generate_credentials` (asyncmiele/utils/crypto.py:51-61): it draws random bytes.
- The first `decrypt_response` (asyncmiele/utils/crypto.py:16-48) is shadowed by the second and is not part of this model.
- HMAC-SHA256 and AES-CBC internals are function parameters. The round-trip lemmas assume only that decryption inverts encryption for equal key and IV.
- Crypto.PadPayload: requires a non-zero block size. Python raises ZeroDivisionError for 0; every caller passes 16.
- Crypto.BuildAuthHeader: a non-ASCII header text, where Python raises UnicodeEncodeError, is a plain error value. The method is upper-cased for ASCII letters only.
- Explorer concurrency: `asyncio.Semaphore` and `gather` are modelled sequentially. Each batch is awaited whole before the result loop, so the order of results matches.
- TreeExplorer.Explorer.ExploreUnit: requires `concurrency >= 1`. With 0 the Python sweep never ends. With a negative value `asyncio.Semaphore` raises ValueError before any probe, and that error path is not modelled. The same requires, for the same reason, is on the device walk and `ExploreDevice`.
- Explorer statistics: the start time, end time and duration are clock readings and are not kept. `leaves_explored` is kept; it stays 0, as in the source.
- `export_tree_to_json`, `import_tree_from_json`, `get_exploration_stats`, the module-level explorer instance and `set_client`: file I/O and globals.
- TreeExplorer.Explorer.ExploreDevice: the generation is a parameter. The source calls `detect_device_generation`, which `DOP2Client` does not define. With no client the model returns NoClient after resetting the statistics, where Python raises AttributeError.
- ExplorerSpec.CompareTrees: the diff's lists are sets, so the order of the Python lists (dict order) is not modelled. Generation names and device ids are kept as pairs.
- `detect_capabilities_as_sets`, `_test_capability_function` and the `test_capability` decorator: async device I/O and metaprogramming.
- Capabilities: device types are the integer codes of the types with their own defaults; the rest of `DeviceType` is not modelled.
- Capabilities.CapabilityDetector.RecordCapabilityTest: the ledgers hold the eleven single capabilities. `DeviceCapability.NONE` and combined flags, which Python stores as one set element each, cannot be recorded or queried.
- DeviceProfiles.DeviceProfile.MarkCapability: `DeviceCapability` flags are sets of atomic capabilities. The ledger separation is proved only for single-capability marks (see `CombinedFlagOverlap`).
- `ProgramCatalog.for_device` and `_RESOURCE_BASE`: filesystem and pydantic loading. `ResourceFileName` models only the file name.
- ProgramCatalog.SelectionLayout: the unknown-option error carries the set of ids; the order of the ids in the message is not modelled.
- ProgramCatalog.ResourceFileName: lower-casing is ASCII only.
- Dop2Client.SfValuePayload: `write_u16` (dop2/binary.py) is not part of this model. It is taken to be big-endian and to fail outside [0, 0xFFFF].
- `build_program_selection_payload` (asyncmiele/dop2/client.py:149-159): it delegates to `build_program_selection` in dop2/programs.py, which is not part of this model.
- `get_program_catalog` and `_get_program_catalog_legacy` (asyncmiele/dop2/client.py:196-317): legacy-catalog orchestration over modules not part of this model. The primary path is modelled up to its first decision. It can never reach the program reads, so those are not modelled.
- The generation detector (dop2/generation.py) is not part of this model. It is a set of registered triples plus a classification function given as a parameter.
- `DOP2Client._cache` is never read or written by the modelled operations.
- asyncmiele/api/client.py (HTTP sessions, dates, retries) and asyncmiele/connection/reset.py are not part of this model. The transport is a request log plus a function giving each request's answer.
- LeafPath.ParseBuiltPath: the path parser is the partner of `_build_leaf_path` for stating its injectivity. It returns the id's bytes and does not decode UTF-8 back into text.
- Consumption cost estimation (floating point) is not modelled.

## Findings

| source | as written | input that shows it | evidently intended | confidence | as-written member | corrected member |
|---|---|---|---|---|---|---|
| asyncmiele/dop2/client.py:333-353 | `get_consumption_stats` keeps a reading only when it is an instance of `HoursOfOperation`, `CycleCounter` or `ProcessData`. `parse_leaf` returns a bare int for 2/119 and 2/138 and a dict for 2/6195, so every field is always None | device answers `00 00 03 E8` on 2/119: `parse_leaf` gives 1000 and `hours_of_operation` stays None | each field holds its leaf's decoded value whenever its own read succeeds | not executed | Dop2Client.ConsumptionDropsHours | Dop2Client.ConsumptionPerField |
