# YourDLT explorer core, modelled in Dafny

This project models the deterministic core of the YourDLT block explorer, a
Vue.js front end for Symbol-based chains, together with its small static
Node.js server. The model covers:

- the explorer's helpers: the id, public-key, address and height
  validators, the namespace-expiration arithmetic, `formatSeconds`,
  `timeSince`, `truncString`, `sortMosaics`, `getColorFromHash`,
  `fetchData`, `isNativeNamespace` and `getMosaicName`;
- the receipt service: grouping receipts into four buckets, tagging the
  buckets, dispatching on a tag, and formatting resolution statements;
- the namespace and mosaic services: full names from levels, alias and
  namespace formatting, namespace-page post-processing, mosaic info and
  list, and the receipt lists of the namespace and mosaic pages;
- the node service: the API endpoint of a peer, the peer filters, the
  1-based index and reshaping of the node list, and the API node status;
- the block store: a class keeping the initialized flag, the subscription
  handle and the height on display, with the store's actions as methods;
- the server: the merge of the default configuration with the
  environment, the route of a request, and the listening port.

JavaScript values are modelled by `Common.Value`: undefined, null, booleans,
integers, strings, arrays and objects. The module `Common` defines
truthiness, property access, strict equality, `+v`, `<`, `String(v)`, and
the string operations the code uses (`split`, `join`, `substring`,
`indexOf`, `filter`). Calls into the Symbol SDK, the REST gateway, the
listener, the clock and the file system are parameters of the model. The
receipt search is a function from criteria to statements, the file system
a function from resolved paths to contents, and a JSON parse a function
that may fail.

## Model

| member | source | states |
|---|---|---|
| Common.Prop | src/infrastructure/NodeService.js:126-127 | property access as JavaScript reads it: an object's own key, an array's or string's length and indexed element, undefined otherwise |
| Common.FirstSegment | src/infrastructure/NamespaceService.js:397 | `s.split(sep)[0]` is the longest prefix of `s` without `sep`, ending at the end of `s` or just before a `sep` |
| Common.SplitJoin | src/infrastructure/NamespaceService.js:436 | splitting a `'.'`-join of dot-free parts gives the parts back |
| Common.Substring | src/helper.js:403-405 | `substring(a, b)` is the slice `s[a..b]` whenever `0 <= a <= b <= |s|` |
| Common.IndexOf | src/helper.js:527 | `indexOf` is -1 exactly when the element is absent, and otherwise the position of its first occurrence |
| Common.Or | src/infrastructure/NodeService.js:107 | the logical or of two values is the first when it is truthy and the second otherwise |
| Common.ToNumber | src/store/block.js:185-186 | unary `+`: a number is itself, null is 0, undefined is NaN, decimal digit text is its value |
| Helper.MatchesPlusEveryChar | src/helper.js:100 | a `^[class]+$` match holds iff the string is non-empty and every character is in the class |
| Helper.IsMosaicOrNamespaceIdIffHex | src/helper.js:99-100 | an id is valid iff it has 16 characters, all hexadecimal digits |
| Helper.PublicKeyClassRanges | src/helper.js:104 | the class `[A-z0-9]` admits exactly the characters from 'A' to 'z' and the decimal digits |
| Helper.IsAccountPublicKeyIffRanges | src/helper.js:102-104 | a public key is valid iff it has 64 characters, each in 'A'..'z' or '0'..'9' |
| Helper.PublicKeyAcceptsUnderscores | src/helper.js:104 | as written, 64 underscores pass as a public key |
| Helper.IsAccountPublicKeyAlnumIffAlnum | src/helper.js:102-104 | the corrected check holds iff there are 64 ASCII letters or digits, and rejects 64 underscores |
| Helper.IsAccountAddressIffWhole | src/helper.js:34-39 | on a 39-character string the unanchored address pattern matches iff the first character is one of the network's two prefix letters and the other 38 are letters or digits; any other length is rejected |
| Helper.IsBlockHeightOfIntToString | src/helper.js:110-111 | the decimal text of every integer, negative ones included, passes as a block height |
| Helper.TimeSince | src/helper.js:42-63 | the first unit, from years down, that is at least 1 is shown, singular for exactly 1 and plural above; minutes and seconds are `min` and `sec` in both cases, and an interval with no such unit shows its seconds, "0 sec" when all are zero |
| Helper.FormatSeconds | src/helper.js:65-97 | the three conditional steps that peel off days, hours and minutes, then the text built from minutes outward, compute `FormatSecondsOf`; null or undefined gives "" |
| Helper.SplitSecondsSum | src/helper.js:73-84 | days, hours, minutes and leftover seconds add back up to the input, and with the strict tests an hour count can reach 24 and a minute count 60 |
| Helper.FormatSecondsEmptyIff | src/helper.js:65-97 | the text is empty iff the input is at most 60 seconds |
| Helper.FormatSecondsDayPart | src/helper.js:73-94 | a day part appears iff the input exceeds 86400 seconds, and then the text is days, hours and minutes; leftover seconds are never printed |
| Helper.FormatSecondsBoundaryAsWritten | src/helper.js:77-84 | as written, 3600 seconds render as "60 m " and 86400 as "24 h 0 m " |
| Helper.SplitSecondsCarryingBounds | src/helper.js:73-84 | with `>=` tests the parts still sum to the input, hours stay below 24, minutes and seconds below 60, and 3600 renders as "1 h 0 m " |
| Helper.ConvertToSecond | src/helper.js:144 | the seconds of a block count have the sign of the count for a positive block time |
| Helper.CalculateNamespaceExpiration | src/helper.js:146-155 | expired iff the remaining block count is negative; the count plus the current height plus the grace period is the end height; the seconds are the count times the block time |
| Helper.FetchData | src/helper.js:157-179 | the awaited steps compute `FetchDataRun`: the commits, hook calls and error log in order, cut off with a rejection at a hook that throws |
| Helper.FetchDataRejectsIffHookThrows | src/helper.js:157-179 | the call rejects iff a hook that is reached throws; an exception of the fetch function never escapes, so without hooks it never rejects |
| Helper.ThrowingBeforeSkipsFetch | src/helper.js:158-159 | a before hook that throws ends the call with a rejection before the fetch runs |
| Helper.ThrowingErrorHookLeavesLoading | src/helper.js:164-178 | with no before hook, an error hook that throws rejects before the success step, so the store is left loading |
| Helper.FetchDataSettles | src/helper.js:157-178 | without hooks the call never rejects; loading is set and the error cleared before the fetch; afterwards loading is false, the error flag says whether the fetch threw, and a throw is logged |
| Helper.FetchDataErrorOnlyOnThrow | src/helper.js:158-173 | the error flag is set iff the fetch ran and threw and no error hook was given |
| Helper.SortMosaics | src/helper.js:324-334 | the `forEach` with `unshift`/`push` computes the reversed natives followed by the others |
| Helper.SortMosaicsPermutesNativeFirst | src/helper.js:324-334 | the result is a permutation of the input in which exactly the native-currency mosaics come first |
| Helper.HexToRgb | src/helper.js:380-387 | the digit-summing loop computes the mean digit scaled to 255, and NaN for an empty string or a non-hex character |
| Helper.HexToRgbRange | src/helper.js:380-387 | a channel is a number iff its segment is a non-empty run of hex digits, and then it lies in 0..255 |
| Helper.GetColorFromHash | src/helper.js:364-411 | the method computes the three channels from the three thirds of the hash, and black for a non-string or a short hash |
| Helper.ColorOfHashRange | src/helper.js:371-411 | a non-string or short hash gives black; a hex hash of length at least 3 gives three channels in 0..255 |
| Helper.TruncString | src/helper.js:414-422 | non-strings and strings of at most `2n` characters are returned unchanged; longer ones become the first `n` characters, "...", then the last `n`, of length `2n+3` |
| Helper.GetLastActivityHeight | src/helper.js:258-264 | the start height of the last bucket, or UNAVAILABLE when there is none |
| Helper.IsNativeNamespace | src/helper.js:521-528 | true iff the native list is loaded and contains the name |
| Helper.GetMosaicName | src/helper.js:595-606 | the first alias of a list, or the alias value, unless that is missing or "N/A", in which case the mosaic id |
| Receipts.GroupTransactionStatement | src/infrastructure/ReceiptService.js:139-194 | the nested loops fill each bucket with the receipts of its types, in statement then receipt order, each stamped with its statement's height |
| Receipts.AllStampedMembership | src/infrastructure/ReceiptService.js:148-161 | a stamped receipt is seen iff some statement holds its receipt and carries its height |
| Receipts.GroupMembership | src/infrastructure/ReceiptService.js:150-183 | a receipt is in a bucket iff it was seen and its type belongs to that bucket |
| Receipts.BucketSizesSum | src/infrastructure/ReceiptService.js:150-184 | the four bucket sizes add up to the number of classified receipts |
| Receipts.DroppedReceipt | src/infrastructure/ReceiptService.js:150-184 | a receipt of any other type leaves every bucket unchanged |
| Receipts.TransactionStatementBuilder | src/infrastructure/ReceiptService.js:196-222 | exactly four statements, each tagged with its bucket's statement type and holding that bucket |
| Receipts.CreateReceiptTransactionStatement | src/infrastructure/ReceiptService.js:118-131 | a known tag dispatches to the builder of its bucket with the statement's data; any other tag throws "Unimplemented receipt transaction statement with type " and the tag |
| Receipts.BuilderDispatchRoundTrip | src/infrastructure/ReceiptService.js:118-131 | dispatching a built statement calls the builder of the bucket it came from with that bucket's receipts |
| Receipts.KeepMembership | src/infrastructure/NamespaceService.js:272-274 | a receipt passes a list's filter iff it is listed and its type and sender meet the filter |
| Receipts.KeepOfSelect | src/infrastructure/MosaicService.js:200-202 | filtering a bucket by types of that bucket is filtering all receipts |
| Receipts.FormatResolutionStatement | src/infrastructure/ReceiptService.js:229-250 | length preserved; address statements get one resolved address per entry, mosaic statements one resolved hex per entry, any other type undefined |
| Namespaces.FindName | src/infrastructure/NamespaceService.js:430 | `find` returns the first name with the level's id, and nothing iff no such name exists |
| Namespaces.LevelNamesSpec | src/infrastructure/NamespaceService.js:428-437 | the level names are found iff every level has a name, in level order; otherwise the error is "Not found" |
| Namespaces.ExtractFullNamespaceSplits | src/infrastructure/NamespaceService.js:428-437 | the full name splits back on `'.'` into the level names, in level order |
| Namespaces.FormatAlias | src/infrastructure/NamespaceService.js:358-378 | type 0 gives aliasType UNAVAILABLE without an alias, 1 MOSAIC with the mosaic hex, 2 ADDRESS with the plain address, any other type undefined |
| Namespaces.FormatNamespace | src/infrastructure/NamespaceService.js:385-399 | a native namespace's end height is INFINITY; the parent name is the first `'.'`-segment of a sub-namespace's name; `aliasType` comes from `formatAlias`; `alias` is the mosaic hex or plain address for alias types 1 and 2, and the SDK alias object the spread of the namespace copied otherwise |
| Namespaces.SdkAlias | src/infrastructure/NamespaceService.js:386 | the SDK alias copied by the spread is an object with its own type code, so truthy |
| Namespaces.ParentNameIsRootLevel | src/infrastructure/NamespaceService.js:397 | for a sub-namespace named from its levels, the parent name is the root level's name |
| Namespaces.RootHasNoParentName | src/infrastructure/NamespaceService.js:397 | a root namespace's parent name is empty |
| Namespaces.NativeNamespaceLookups | src/infrastructure/NamespaceService.js:330-336 | exactly two lookups: the first `'.'`-segment of the configured name, then the name itself |
| Namespaces.NativeNamespaceRootOfJoin | src/infrastructure/NamespaceService.js:331-333 | for a configured "root.sub" the root lookup is "root" |
| Namespaces.BuildNamespaceInfo | src/infrastructure/NamespaceService.js:146-170 | the object built and then mutated key by key is `GetNamespaceInfo` |
| Namespaces.GetNamespaceInfoRules | src/infrastructure/NamespaceService.js:149-168 | status EXPIRED iff expired; `expiredInBlock` removed iff expired; `beforeEndHeight` added and `endHeight` removed iff the chain is below the end height; each alias key only for its alias type |
| Namespaces.GetNamespaceInfoBlocksText | src/infrastructure/NamespaceService.js:160 | a live, non-native namespace shows its remaining blocks followed by " ≈ " and the duration |
| Namespaces.NativeNamespaceNeverExpires | src/infrastructure/NamespaceService.js:392-394 | a native namespace stays active, shows INFINITY blocks and keeps its INFINITY end height |
| Namespaces.AliasKeysFollowAliasType | src/infrastructure/NamespaceService.js:153-157 | an address alias fills `aliasAddress`, a mosaic alias `aliasMosaic`, and other types neither |
| Namespaces.NamespaceBalanceTransferIsRentalFees | src/infrastructure/NamespaceService.js:250-276 | the list holds exactly the namespace rental fees sent by the owner among the receipts the search found, in order |
| Namespaces.NamespaceArtifactExpiryIsExpiries | src/infrastructure/NamespaceService.js:284-308 | the list holds exactly the namespace expired and deleted receipts found at the end height, in order |
| Mosaics.ExtractMosaicNamespace | src/infrastructure/MosaicService.js:278-286 | the alias names of the first entry with the mosaic's id, in order, or [UNAVAILABLE] when it has none; no entry throws |
| Mosaics.FindMosaicNames | src/infrastructure/MosaicService.js:280 | `find` returns the first entry with the mosaic id, and nothing iff no entry has it |
| Mosaics.MosaicNameOfExtractedAliases | src/infrastructure/MosaicService.js:283 | `getMosaicName` of the extracted names is the first alias, or the mosaic id when there is none |
| Mosaics.MosaicExpiredInBlock | src/infrastructure/MosaicService.js:93-98 | INFINITY iff the duration is 0, else start height plus duration |
| Mosaics.GetMosaicInfo | src/infrastructure/MosaicService.js:87-100 | the mosaic info with its alias names and expiry, and an error exactly when no names entry matches |
| Mosaics.GetMosaicListShape | src/infrastructure/MosaicService.js:121-127 | the list keeps the length and order of the data, and each item gains its own address as owner |
| Mosaics.MosaicBalanceTransferIsRentalFees | src/infrastructure/MosaicService.js:178-204 | the list holds exactly the mosaic rental fees sent by the owner address among the receipts found, in order |
| Mosaics.MosaicArtifactExpiryRules | src/infrastructure/MosaicService.js:212-241 | duration 0 gives `{}` whatever the search would return; otherwise exactly the mosaic expiry receipts found at the end height |
| Mosaics.MosaicArtifactExpiryPage | src/infrastructure/MosaicService.js:223-240 | a mosaic with a duration gets the page that keeps, in order, the mosaic expiry receipts of the statements searched at its end height |
| Mosaics.MosaicArtifactExpiryFound | src/infrastructure/MosaicService.js:223-240 | a mosaic with a duration gets exactly the mosaic expiry receipts the search finds at its end height, in order |
| Nodes.ApiEndpoint | src/infrastructure/NodeService.js:104-110 | "http://" + host + ":" + (port or 3000) iff the roles are strictly one of 2, 3, 6, 7, else UNAVAILABLE |
| Nodes.ApiRoleIsApiBit | src/infrastructure/NodeService.js:105-108 | among role sets 0..7 the endpoint is given exactly to those holding the API bit |
| Nodes.ApiRoleIgnoresWiderRoles | src/infrastructure/NodeService.js:105-110 | role values of 8 and above get no endpoint |
| Nodes.FormatNodeInfo | src/infrastructure/NodeService.js:96-111 | the node's own fields plus the derived ones; `rolesRaw` is the raw roles, `nodePublicKey` the public key |
| Nodes.NoFilterKeepsAll | src/infrastructure/NodeService.js:123-128 | with neither filter set every peer is kept, in order |
| Nodes.KeptPeers | src/infrastructure/NodeService.js:123-128 | the two filters keep at most the given peers, and every peer kept passes the reward-program filter |
| Nodes.KeptPeersMembership | src/infrastructure/NodeService.js:123-128 | a peer is kept iff listed and passing both filters; with a role filter its raw roles equal the filter |
| Nodes.RewardProgramAll | src/infrastructure/NodeService.js:126 | the filter "all" keeps a peer with a program array iff the array is non-empty |
| Nodes.RewardProgramByName | src/infrastructure/NodeService.js:127 | any other filter keeps a peer with a program array iff its first program's name equals the filter |
| Nodes.ChainInfoOf | src/infrastructure/NodeService.js:135-143 | chain height, finalization height and last check from the API status when present, `{}` otherwise |
| Nodes.ShapePeerNode | src/infrastructure/NodeService.js:129-150 | the callback that builds the node, sets its chain info, spreads and deletes the host details computes `ShapePeer` |
| Nodes.NodePeerListIndexAndChainInfo | src/infrastructure/NodeService.js:129-143 | the i-th output has index i+1 and its own chain info, unless the peer or its host details carry those keys |
| Nodes.ShapePeerHostDetail | src/infrastructure/NodeService.js:145-148 | present host details are flattened into the node and the key removed; other fields survive unless overridden |
| Nodes.GetApiNodeStatus | src/infrastructure/NodeService.js:180-200 | failure or a missing body keeps the unavailable status; a body without `status` marks only the connection; otherwise both statuses are whether the service reports "up" |
| BlockStore.SubscribeOnlyWhenNone | src/store/block.js:128-147 | a subscription is opened and its handle stored iff none is stored; otherwise nothing changes |
| BlockStore.UnsubscribeOnceThenIdle | src/store/block.js:150-158 | a two-part handle is unsubscribed (part 1), closed (part 0) and cleared; any other state is left alone; repeating changes nothing |
| BlockStore.OddHandleStays | src/store/block.js:128-158 | a stored handle without two parts is never closed and never replaced |
| BlockStore.ResubscribeAfterUninitialize | src/store/block.js:107-124 | after the uninitialize callback the initialize callback stores the new handle |
| BlockStore.FetchBlockInfoOrder | src/store/block.js:166-173 | the four detail managers are uninitialized, the height committed, then the four fetches start with it in order info, blockReceipts, blockTransactions, receipt, each seeing the new height |
| BlockStore.UninitializeCallbackOrder | src/store/block.js:117-124 | unsubscribe, then the detail managers, then the timeline are uninitialized |
| BlockStore.NewBlockReachesTimelineByHeight | src/store/block.js:131-140 | a new block goes to the timeline keyed by `height` with its age and its signer as harvester, then the chain info is refreshed |
| BlockStore.NextBlockBounds | src/store/block.js:182-189 | the next block opens only while the height is below the chain height, and it is height + 1, never beyond the chain |
| BlockStore.PreviousBlockBounds | src/store/block.js:191-198 | the previous block opens iff the height is above 1, and it is height - 1, at least 1 |
| BlockStore.KeepIndexBelowIsPrefix | src/store/block.js:85 | filtering by index below n is the first min(n, length) items |
| BlockStore.GetRecentList | src/store/block.js:85 | the first min(4, length) timeline items in order, [] without data, and a throw for data that is not an array |
| BlockStore.Store.SetInitialized | src/store/block.js:95-97 | the `setInitialized` mutation sets the flag and changes nothing else; it is committed by the lock, which is not part of this model |
| BlockStore.Store.Subscribe | src/store/block.js:128-147 | the store's new state is `SubscribeStep` of the old |
| BlockStore.Store.Unsubscribe | src/store/block.js:150-158 | the store's new state is `UnsubscribeStep` of the old |
| BlockStore.Store.FetchBlockInfo | src/store/block.js:166-173 | the store's new state is `FetchBlockInfoStep` of the old |
| BlockStore.Store.UninitializeDetail | src/store/block.js:175-180 | four uninitialize calls appended in order info, blockReceipts, blockTransactions, receipt |
| BlockStore.Store.InitializeCallback | src/store/block.js:108-111 | the page is initialized, then the subscription opened |
| BlockStore.Store.InitializePage | src/store/block.js:161-164 | the chain info is refreshed, then the timeline's first fetch started without a height |
| BlockStore.Store.OnNewBlock | src/store/block.js:131-141 | the store's new state is `NewBlockStep` of the old |
| BlockStore.Store.UninitializeCallback | src/store/block.js:118-122 | the store's new state is `UninitializeCallbackStep` of the old |
| BlockStore.Store.NextBlock | src/store/block.js:182-189 | the store's new state is `NextBlockStep` of the old |
| BlockStore.Store.PreviousBlock | src/store/block.js:191-198 | the store's new state is `PreviousBlockStep` of the old |
| Server.ReadConfig | server.js:20-34 | the loop over the environment keys computes the defaults overlaid by the parsed entries |
| Server.MergedConfigRules | server.js:21-35 | the merged keys are the default keys; falsy defaults and keys the environment lacks keep the default; others take the parsed value, or the raw text |
| Server.EnvValue | server.js:22-29 | an entry's value is its JSON parse, or the raw text when parsing throws |
| Server.HandleRequest | server.js:72-89 | the handler rewrites `/` and answers as `Route` |
| Server.RootIsIndex | server.js:73-74 | `/` is answered as `/index.html` is |
| Server.ConfigRouteIgnoresFiles | server.js:76-77 | `/config` answers the merged configuration as JSON whatever the file system holds |
| Server.MissingFileFallsBack | server.js:80-88 | another url serves its file, else index.html, else 404 with the read error |
| Server.ServedUrl | server.js:73-74 | `/` is rewritten to `/index.html`; every other url is kept, so the result is never `/` |
| Server.ResolveSegments | server.js:42 | an absolute path resolves lexically, from the root, to entries with no empty, `.` or `..` segment and no more entries than segments; `..` stops only at the root |
| Server.ResolveSnoc | server.js:42 | resolving one more segment is one more step of the resolution |
| Server.ResolveServerDir | server.js:42 | the server's own directory resolves to itself |
| Server.StaticEntryResolves | server.js:42 | `__dirname + "/www/" + name` resolves to `<dir>/www/<name>`, inside the static folder |
| Server.IndexFileIsInStaticFolder | server.js:82 | the fallback page resolves to `<dir>/www/index.html`, inside the static folder |
| Server.ParentOfStaticResolves | server.js:42 | `<dir>/www/../<name>` resolves to `<dir>/<name>`, outside the static folder |
| Server.ClimbAboveServerDir | server.js:42 | `..` climbs above the server's directory too: with the server in `/app`, `/../../www/<name>` names `/www/<name>`, which is not the static folder |
| Server.TraversalEscapesStaticFolder | server.js:42 | as written, `/../<name>` reads and serves `<dir>/<name>`, outside the static folder |
| Server.ServerSourceIsServed | server.js:42 | as written, `/../server.js` serves `<dir>/server.js`, the server's own source |
| Server.RouteConfined | server.js:41-51 | the corrected route only ever serves files under `<dir>/www`, for any resolved server directory |
| Server.RouteConfinedRefusesClimb | server.js:42 | the corrected route does not serve `/www/<name>` for the url that climbs above `/app` |
| Server.RouteConfinedAgreesInside | server.js:72-89 | the corrected route answers every url that stays in the folder as the written one |
| Server.ListenPort | server.js:90 | the configured port when truthy, else 80 |
| Server.ListenPortFromEnvironment | server.js:21-34 | the environment moves the port only when the defaults carry a truthy port |
| Server.StartupMessageNamesWrongPort | server.js:92 | as written, a configured port 8080 is listened on while the message names port 80 |
| Server.ListeningMessage | server.js:90-92 | the corrected message names the port listened on, and agrees with the written one when no port is configured |

## Left out

- Constants values: src/config/constants.js is not part of this model. The message strings ("N/A", "INFINITY", "UNLIMITED", "EXPIRED", "ACTIVE", "INACTIVE", "MOSAIC", "ADDRESS"), the receipt statement tags ("BalanceChangeReceipt" …) and the resolution type names ("Address", "Mosaic") are assumed.
- CreateReceiptTransaction builders: their source is not part of this model. A dispatch is modelled as the call it makes (`BuilderCall`), and the lists filter the receipts that call is given, taken as the formatted receipts.
- SDK, REST and listener calls: these are foreign calls, modelled as opaque values and parameters. They include repository searches, `toHex`, `plain`, `compact`, `Address.createFromPublicKey`, `NamespaceId`/`MosaicId`, `hexOrNamespaceToId` and `formatNodeVersion`.
- Streamer functions of the receipt service: rxjs streaming is not modelled.
- Lock, DataSet and Pagination: their source is not part of this model. The block store records the calls it makes into them. When the lock runs the initialize and uninitialize callbacks is not modelled.
- Concurrency: the block store's awaits and the `Promise.all` fan-outs are not modelled. Two overlapping `subscribe` calls could both see no handle; the model runs actions one at a time.
- Floating point: numbers are integers. `Math.floor`, `Math.trunc` and `/` are modelled on non-negative integers. `parseInt` is taken per hex digit, with NaN as `None`.
- Dates via moment: `timeSince` takes the interval already computed. `getApiNodeStatus` takes its two timestamps as parameters. The duration text of `getNamespaceInfo` is a parameter.
- getColorFromHash with `isHex` false: the charset path (src/helper.js:389-398) is not modelled.
- Filtered-out helpers: formatMosaicAmountWithDivisibility, toNetworkCurrency, ImportanceScoreToPercent, convertBlockDifficultyToReadable, networkTimestamp, the URL helpers, the clipboard helpers and getNetworkCurrencyBalance. They use floating point, locale formatting, the URL library or the DOM.
- getNodeInfo, isNodeActive, getNodeChainInfo and the `localeCompare` sort of getNodePeers: these are HTTP calls and locale ordering. `NodePeerList` takes the peers already formatted and ordered.
- Spreading a non-object: a truthy `hostDetail` that is not an object (a string or an array) would spread index keys. `SpreadFields` spreads objects only.
- Namespaces.FormatNamespace: the keys the SDK alias spreads itself (`type`, `mosaicId`, `address`, copied by `formatAlias`) are not fields of the formatted namespace, the other SDK fields of the namespace object are not kept, and `registrationType` is not renamed through the registration-type table; `SdkAlias` keeps only the alias's type code.
- Receipts.FormatResolutionStatement: the source compacts the height of address resolution statements only; mosaic resolution statements keep the SDK `UInt64` height from the spread. The model gives both an integer height.
- Helper.FetchData: a `commit` that throws is not modelled; the store commits are taken to return.
- Nodes.FormatNodeInfo: the address, role name, network name and version come from the SDK and lookup tables, so they are passed in.
- Common.ToNumber: handles decimal integer text with an optional minus sign, "", booleans and null. Whitespace, hexadecimal, exponent and decimal-point text, arrays and objects read as NaN.
- Common.StrictEq: arrays and objects compare unequal, as values from different sources are different references.
- Strings: a Dafny string is a sequence of Unicode characters, while JavaScript's `length`, indices, `substring` and string `<` count UTF-16 code units. `Common.Prop`, `Common.Substring`, `Common.StringLess` and `Helper.TruncString` agree with the source only for text whose characters all lie in the 16-bit range; beyond it JavaScript counts two units per character and may cut a surrogate pair.
- Common.ToStr: arrays render their items; objects render as "[object Object]" whatever a custom `toString` would give.
- Server I/O: the read and parse of the default configuration file, the environment, the HTTP server and the socket writes. A failed read of the default file throws in the source; the model starts from the parsed defaults.
- Server.ReadConfig: environment keys inherited from `Object.prototype` (such as `toString`) would read as truthy defaults; plain own keys only are modelled.
- Server.ResolveSegments: resolution is by the text of the path alone. The operating system walks the path entry by entry, so a `..` that follows a missing entry fails with ENOENT and one that follows a file fails with ENOTDIR; the source then serves index.html. The model instead serves the file the resolved text names, as in `/missing/../app.js`. Confinement and the traversal finding are unaffected: their paths pass only through directories that exist.
- Server.ResolvePath: resolves `.` and `..` lexically from the root, with the server's directory a parameter; symbolic links are not modelled.
- Logging: the `console.error` calls of getColorFromHash (src/helper.js:372, 376), truncString (src/helper.js:420) and getApiNodeStatus (src/infrastructure/NodeService.js:197) are not modelled; only fetchData's log is an effect of the model.
- src/config/loader.js: a single HTTP fetch that assigns a global.
- e2e/pageDetail/transactions/mosaicSupplyChange.spec.js: a UI test with no logic of its own.

## Findings

| source | as written | input that shows it | evidently intended | confidence | as-written member | corrected member |
|---|---|---|---|---|---|---|
| src/helper.js:104 | `[A-z0-9]` spans 'A'..'z', which includes `[ \ ] ^ _` and the backquote | 64 underscores pass as a public key | letters and digits only, `[A-Za-z0-9]` | not executed; high | Helper.PublicKeyAcceptsUnderscores | Helper.IsAccountPublicKeyAlnumIffAlnum |
| src/helper.js:73-84 | strict `>` tests leave exact multiples uncarried | 3600 renders "60 m ", 86400 renders "24 h 0 m " | `>=`, giving "1 h 0 m " and "1 d 0 h 0 m " | not executed; medium | Helper.FormatSecondsBoundaryAsWritten | Helper.SplitSecondsCarryingBounds |
| server.js:42 | the static folder is joined with the raw url, `..` included | GET `/../server.js` serves the server's own source | serve files inside `/www` only | not executed; high | Server.TraversalEscapesStaticFolder | Server.RouteConfined |
| server.js:92 | the start-up message prints the constant port | a configured `PORT` of 8080 listens on 8080 and reports 80 | report the port listened on | not executed; medium | Server.StartupMessageNamesWrongPort | Server.ListeningMessage |
