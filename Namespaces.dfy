/** Name resolution, alias formatting and the namespace page's expiry rules
    of the namespace service (src/infrastructure/NamespaceService.js). */
module Namespaces {
  import opened Common
  import opened Helper
  import opened Receipts

  // ---------------------------------------------------------------------
  // extractFullNamespace
  // ---------------------------------------------------------------------

  /** A formatted `NamespaceName`: a namespace id as hex and its own name. */
  datatype NamespaceName = NamespaceName(namespaceId: string, name: string)

  /** `namespaceNames.find(name => name.namespaceId === id)`. */
  function FindName(namespaceNames: seq<NamespaceName>, id: string): (r: Option<NamespaceName>)
    ensures r.None? <==> forall i :: 0 <= i < |namespaceNames| ==> namespaceNames[i].namespaceId != id
    ensures r.Some? ==>
      exists i :: 0 <= i < |namespaceNames| && namespaceNames[i] == r.value &&
        r.value.namespaceId == id && forall j :: 0 <= j < i ==> namespaceNames[j].namespaceId != id
  {
    if namespaceNames == [] then None
    else if namespaceNames[0].namespaceId == id then Some(namespaceNames[0])
    else
      var r := FindName(namespaceNames[1..], id);
      assert forall i :: 1 <= i < |namespaceNames| ==> namespaceNames[i] == namespaceNames[1..][i - 1];
      if r.Some? then
        var i :| 0 <= i < |namespaceNames[1..]| && namespaceNames[1..][i] == r.value &&
          r.value.namespaceId == id && forall j :: 0 <= j < i ==> namespaceNames[1..][j].namespaceId != id;
        assert namespaceNames[i + 1] == r.value;
        r
      else r
  }

  /** The name of every level, in level order, or the exception of the
      first level without a name. */
  function LevelNames(levels: seq<string>, namespaceNames: seq<NamespaceName>): Result<seq<string>> {
    if levels == [] then Ok([])
    else
      match FindName(namespaceNames, levels[0])
      case None => Err("Not found")
      case Some(n) =>
        match LevelNames(levels[1..], namespaceNames)
        case Err(e) => Err(e)
        case Ok(rest) => Ok([n.name] + rest)
  }

  /** `extractFullNamespace`: the level names joined with '.'. */
  function ExtractFullNamespace(levels: seq<string>, namespaceNames: seq<NamespaceName>): Result<string> {
    match LevelNames(levels, namespaceNames)
    case Err(e) => Err(e)
    case Ok(names) => Ok(Join(names, '.'))
  }

  lemma {:induction false} LevelNamesSpec(levels: seq<string>, namespaceNames: seq<NamespaceName>)
    ensures LevelNames(levels, namespaceNames).Ok? <==> forall i :: 0 <= i < |levels| ==> FindName(namespaceNames, levels[i]).Some?
    ensures LevelNames(levels, namespaceNames).Err? ==> LevelNames(levels, namespaceNames).message == "Not found"
    ensures LevelNames(levels, namespaceNames).Ok? ==>
      var names := LevelNames(levels, namespaceNames).value;
      |names| == |levels| && forall i :: 0 <= i < |levels| ==> names[i] == FindName(namespaceNames, levels[i]).value.name
  {
    if levels != [] {
      LevelNamesSpec(levels[1..], namespaceNames);
      assert forall i :: 1 <= i < |levels| ==> levels[i] == levels[1..][i - 1];
    }
  }

  /** The full name exists exactly when every level has a name, and it then
      splits back, at '.', into the levels' names in level order (for names
      without a '.' of their own). */
  lemma ExtractFullNamespaceSplits(levels: seq<string>, namespaceNames: seq<NamespaceName>)
    requires |levels| >= 1
    requires forall i :: 0 <= i < |namespaceNames| ==> '.' !in namespaceNames[i].name
    ensures ExtractFullNamespace(levels, namespaceNames).Ok? <==>
      forall i :: 0 <= i < |levels| ==> FindName(namespaceNames, levels[i]).Some?
    ensures ExtractFullNamespace(levels, namespaceNames).Err? ==> ExtractFullNamespace(levels, namespaceNames).message == "Not found"
    ensures ExtractFullNamespace(levels, namespaceNames).Ok? ==>
      var parts := Split(ExtractFullNamespace(levels, namespaceNames).value, '.');
      |parts| == |levels| && forall i :: 0 <= i < |levels| ==> parts[i] == FindName(namespaceNames, levels[i]).value.name
  {
    LevelNamesSpec(levels, namespaceNames);
    if LevelNames(levels, namespaceNames).Ok? {
      var names := LevelNames(levels, namespaceNames).value;
      forall i | 0 <= i < |names| ensures '.' !in names[i] {
        assert FindName(namespaceNames, levels[i]).value in namespaceNames;
      }
      SplitJoin(names, '.');
    }
  }

  // ---------------------------------------------------------------------
  // formatAlias and formatNamespace
  // ---------------------------------------------------------------------

  /** The SDK alias: its type code, and the mosaic id (as hex) or plain
      address it points to. */
  datatype Alias = Alias(aliasTypeCode: int, mosaicIdHex: string, addressPlain: string)

  /** `formatAlias`: the readable alias object, or undefined for an unknown
      type. Only the two keys the explorer adds are modelled. */
  function FormatAlias(alias: Alias): (r: Value)
    ensures alias.aliasTypeCode == 0 ==> r == Obj(map["aliasType" := Str(UNAVAILABLE)])
    ensures alias.aliasTypeCode == 1 ==> r == Obj(map["aliasType" := Str(MOSAIC), "alias" := Str(alias.mosaicIdHex)])
    ensures alias.aliasTypeCode == 2 ==> r == Obj(map["aliasType" := Str(ADDRESS), "alias" := Str(alias.addressPlain)])
    ensures alias.aliasTypeCode !in {0, 1, 2} ==> r == Undefined
    ensures r.Obj? ==> "aliasType" in r.fields && ("alias" in r.fields <==> alias.aliasTypeCode != 0)
  {
    if alias.aliasTypeCode == 0 then Obj(map["aliasType" := Str(UNAVAILABLE)])
    else if alias.aliasTypeCode == 1 then Obj(map["aliasType" := Str(MOSAIC), "alias" := Str(alias.mosaicIdHex)])
    else if alias.aliasTypeCode == 2 then Obj(map["aliasType" := Str(ADDRESS), "alias" := Str(alias.addressPlain)])
    else Undefined
  }

  /** The SDK `NamespaceInfo` fields `formatNamespace` reads; `name` is the
      full name `toNamespaces` attached. */
  datatype NamespaceDto = NamespaceDto(
    name: string, idHex: string, registrationType: int, ownerAddressPlain: string,
    startHeight: int, endHeight: int, active: bool, alias: Alias, levels: seq<string>)

  /** `endHeight` of a formatted namespace: a height, or the INFINITY message
      for a native namespace. */
  datatype EndHeight = Height(height: int) | Infinite

  datatype FormattedNamespace = FormattedNamespace(
    namespaceName: string, namespaceId: string, ownerAddress: string,
    startHeight: int, endHeight: EndHeight, active: string,
    aliasType: Value, alias: Value, parentName: string, levels: seq<string>)

  /** The SDK `Alias` object itself, as `...namespace` copies it under
      `alias`: an object, so truthy. Only its type code is modelled; its
      `mosaicId` and `address` are SDK objects. */
  function SdkAlias(alias: Alias): (v: Value)
    ensures v.Obj? && Truthy(v) && Get(v.fields, "type") == Num(alias.aliasTypeCode)
  {
    Obj(map["type" := Num(alias.aliasTypeCode)])
  }

  /** `...this.formatAlias(...)`: spreading undefined adds nothing. */
  function SpreadGet(v: Value, key: string): Value {
    if v.Obj? then Get(v.fields, key) else Undefined
  }

  /** `formatNamespace`: the SDK fields under the explorer's names, then the
      formatted alias spread over them. The `alias` key keeps the SDK alias
      object that `...namespace` copied unless `formatAlias` replaces it. */
  function FormatNamespace(namespace: NamespaceDto, nativeNamespaceNames: Option<seq<string>>): (r: FormattedNamespace)
    ensures r.endHeight == Infinite <==> IsNativeNamespace(namespace.name, nativeNamespaceNames)
    ensures r.endHeight.Height? ==> r.endHeight.height == namespace.endHeight
    ensures r.parentName == (if namespace.registrationType != 0 then FirstSegment(namespace.name, '.') else "")
    ensures r.active == (if namespace.active then ACTIVE else INACTIVE)
    ensures r.aliasType == SpreadGet(FormatAlias(namespace.alias), "aliasType")
    ensures namespace.alias.aliasTypeCode == 1 ==> r.alias == Str(namespace.alias.mosaicIdHex)
    ensures namespace.alias.aliasTypeCode == 2 ==> r.alias == Str(namespace.alias.addressPlain)
    ensures namespace.alias.aliasTypeCode !in {1, 2} ==> r.alias == SdkAlias(namespace.alias)
  {
    var formattedAlias := FormatAlias(namespace.alias);
    FormattedNamespace(
      namespace.name,
      namespace.idHex,
      namespace.ownerAddressPlain,
      namespace.startHeight,
      if IsNativeNamespace(namespace.name, nativeNamespaceNames) then Infinite else Height(namespace.endHeight),
      if namespace.active then ACTIVE else INACTIVE,
      SpreadGet(formattedAlias, "aliasType"),
      if SpreadGet(formattedAlias, "alias").Undefined? then SdkAlias(namespace.alias)
      else SpreadGet(formattedAlias, "alias"),
      if namespace.registrationType != 0 then Split(namespace.name, '.')[0] else "",
      namespace.levels)
  }

  /** For a sub-namespace whose name `toNamespaces` assembled from its levels,
      `parentName` is the name of the root level (also for a third-level
      namespace, whose direct parent is the second level). */
  lemma ParentNameIsRootLevel(namespace: NamespaceDto, nativeNamespaceNames: Option<seq<string>>, namespaceNames: seq<NamespaceName>)
    requires namespace.registrationType != 0
    requires |namespace.levels| >= 1
    requires forall i :: 0 <= i < |namespaceNames| ==> '.' !in namespaceNames[i].name
    requires ExtractFullNamespace(namespace.levels, namespaceNames) == Ok(namespace.name)
    ensures FormatNamespace(namespace, nativeNamespaceNames).parentName ==
      FindName(namespaceNames, namespace.levels[0]).value.name
  {
    ExtractFullNamespaceSplits(namespace.levels, namespaceNames);
  }

  /** A root namespace has no parent name. */
  lemma RootHasNoParentName(namespace: NamespaceDto, nativeNamespaceNames: Option<seq<string>>)
    requires namespace.registrationType == 0
    ensures FormatNamespace(namespace, nativeNamespaceNames).parentName == ""
  {
  }

  // ---------------------------------------------------------------------
  // getNativeNamespaces
  // ---------------------------------------------------------------------

  /** The two names `getNativeNamespaces` looks up: the root of the configured
      network namespace, then the configured name itself. */
  function NativeNamespaceLookups(namespaceName: string): (r: seq<string>)
    ensures |r| == 2 && r[0] == FirstSegment(namespaceName, '.') && r[1] == namespaceName
    ensures |r[0]| <= |namespaceName| && r[0] == namespaceName[..|r[0]|] && '.' !in r[0]
    ensures r[0] == r[1] <==> '.' !in namespaceName
  {
    var root := FirstSegment(namespaceName, '.');
    if '.' !in namespaceName then
      assert root == namespaceName;
      [root, namespaceName]
    else
      assert root != namespaceName;
      [root, namespaceName]
  }

  /** For a configured name "root.sub", the root lookup is "root". */
  lemma NativeNamespaceRootOfJoin(root: string, sub: string)
    requires '.' !in root && '.' !in sub
    ensures NativeNamespaceLookups(Join([root, sub], '.')) == [root, Join([root, sub], '.')]
  {
    SplitJoin([root, sub], '.');
  }

  // ---------------------------------------------------------------------
  // getNamespaceInfo
  // ---------------------------------------------------------------------

  /** `calculateNamespaceExpiration` on a formatted end height. For the
      INFINITY message the arithmetic gives NaN: the comparison is false, so
      the namespace is not expired, and the block count is NaN (`None`). */
  datatype InfoExpiration = InfoExpiration(isExpired: bool, expiredInBlock: Option<int>)

  function ExpirationOf(currentHeight: int, endHeight: EndHeight, config: NetworkConfig): InfoExpiration {
    match endHeight
    case Height(h) =>
      var e := CalculateNamespaceExpiration(currentHeight, h, config);
      InfoExpiration(e.isExpired, Some(e.expiredInBlock))
    case Infinite => InfoExpiration(false, None)
  }

  /** `currentHeight < endHeight`; with the INFINITY message the comparison
      is with NaN and is false. */
  predicate BeforeEnd(currentHeight: int, endHeight: EndHeight) {
    endHeight.Height? && currentHeight < endHeight.height
  }

  /** The object `getNamespaceInfo` returns: the formatted namespace, with
      the keys it adds, sets or deletes; `None` is a key that is absent. */
  datatype NamespaceInfo = NamespaceInfo(
    namespace: FormattedNamespace,
    duration: string,
    status: string,
    aliasAddress: Option<Value>,
    aliasMosaic: Option<Value>,
    expiredInBlock: Option<string>,
    beforeEndHeight: Option<string>,
    endHeight: Option<EndHeight>)

  /** The post-processing of `getNamespaceInfo` for the chain height
      `currentHeight`; `durationText` is what the time-from-now helper made
      of the expiration in seconds ("" when it had nothing to say). */
  function GetNamespaceInfo(
    namespace: FormattedNamespace, currentHeight: int, config: NetworkConfig,
    nativeNamespaceNames: Option<seq<string>>, durationText: string): NamespaceInfo
  {
    var exp := ExpirationOf(currentHeight, namespace.endHeight, config);
    var duration := if durationText != "" then durationText else UNLIMITED;
    var native := IsNativeNamespace(namespace.namespaceName, nativeNamespaceNames);
    var blocksText := if exp.expiredInBlock.Some? then IntToString(exp.expiredInBlock.value) else "NaN";
    var endText := match namespace.endHeight
      case Height(h) => IntToString(h)
      case Infinite => INFINITY;
    NamespaceInfo(
      namespace,
      duration,
      if exp.isExpired then EXPIRED else ACTIVE,
      if StrictEq(namespace.aliasType, Str(ADDRESS)) then Some(namespace.alias) else None,
      if StrictEq(namespace.aliasType, Str(MOSAIC)) then Some(namespace.alias) else None,
      if exp.isExpired then None
      else Some(if native then INFINITY else blocksText + " ≈ " + duration),
      if BeforeEnd(currentHeight, namespace.endHeight)
      then Some(if native then INFINITY
                else endText + " ( " + IntToString(config.namespaceGraceDuration) + " blocks of grace period )")
      else None,
      if BeforeEnd(currentHeight, namespace.endHeight) then None else Some(namespace.endHeight))
  }

  /** `getNamespaceInfo` as the source builds it: the formatted namespace with
      duration and status, then the alias keys, the remaining-blocks text and
      its removal, and the swap of the end height for its text. */
  method BuildNamespaceInfo(
    namespace: FormattedNamespace, currentHeight: int, config: NetworkConfig,
    nativeNamespaceNames: Option<seq<string>>, durationText: string)
    returns (info: NamespaceInfo)
    ensures info == GetNamespaceInfo(namespace, currentHeight, config, nativeNamespaceNames, durationText)
  {
    ghost var want := GetNamespaceInfo(namespace, currentHeight, config, nativeNamespaceNames, durationText);
    var exp := ExpirationOf(currentHeight, namespace.endHeight, config);
    var duration := if durationText != "" then durationText else UNLIMITED;
    info := NamespaceInfo(namespace, duration, if exp.isExpired then EXPIRED else ACTIVE,
                          None, None, None, None, Some(namespace.endHeight));
    if StrictEq(namespace.aliasType, Str(ADDRESS)) {
      info := info.(aliasAddress := Some(namespace.alias));
    }
    if StrictEq(namespace.aliasType, Str(MOSAIC)) {
      info := info.(aliasMosaic := Some(namespace.alias));
    }
    assert info.(expiredInBlock := want.expiredInBlock, beforeEndHeight := want.beforeEndHeight,
                 endHeight := want.endHeight) == want;
    var native := IsNativeNamespace(namespace.namespaceName, nativeNamespaceNames);
    var blocksText := if exp.expiredInBlock.Some? then IntToString(exp.expiredInBlock.value) else "NaN";
    info := info.(expiredInBlock := Some(if native then INFINITY else blocksText + " ≈ " + info.duration));
    if exp.isExpired {
      info := info.(expiredInBlock := None);
    }
    assert info.expiredInBlock == want.expiredInBlock;
    if BeforeEnd(currentHeight, namespace.endHeight) {
      var endText := IntToString(namespace.endHeight.height);
      info := info.(beforeEndHeight := Some(if native then INFINITY
        else endText + " ( " + IntToString(config.namespaceGraceDuration) + " blocks of grace period )"));
      info := info.(endHeight := None);
    }
  }

  /** The rules of `getNamespaceInfo`: the status says whether the namespace
      is past its end height less the grace period; the remaining-blocks text
      is removed exactly when it is expired; the end height is replaced by a
      `beforeEndHeight` text exactly when the chain has not reached it; an
      alias key is set only for its own alias type. */
  lemma GetNamespaceInfoRules(
    namespace: FormattedNamespace, currentHeight: int, config: NetworkConfig,
    nativeNamespaceNames: Option<seq<string>>, durationText: string)
    ensures var info := GetNamespaceInfo(namespace, currentHeight, config, nativeNamespaceNames, durationText);
      var expired := namespace.endHeight.Height? &&
        currentHeight > namespace.endHeight.height - config.namespaceGraceDuration;
      (info.status == EXPIRED <==> expired) &&
      (info.status == ACTIVE <==> !expired) &&
      (info.expiredInBlock.None? <==> expired) &&
      (info.beforeEndHeight.Some? <==> namespace.endHeight.Height? && currentHeight < namespace.endHeight.height) &&
      (info.endHeight.None? <==> info.beforeEndHeight.Some?) &&
      (info.aliasAddress.Some? <==> namespace.aliasType == Str(ADDRESS)) &&
      (info.aliasMosaic.Some? <==> namespace.aliasType == Str(MOSAIC)) &&
      !(info.aliasAddress.Some? && info.aliasMosaic.Some?)
  {
  }

  /** For a namespace that is not native and not expired, the remaining-blocks
      text is the block count to the end of the grace period and the duration. */
  lemma GetNamespaceInfoBlocksText(
    namespace: FormattedNamespace, currentHeight: int, config: NetworkConfig,
    nativeNamespaceNames: Option<seq<string>>, durationText: string)
    requires namespace.endHeight.Height?
    requires !IsNativeNamespace(namespace.namespaceName, nativeNamespaceNames)
    requires currentHeight <= namespace.endHeight.height - config.namespaceGraceDuration
    requires durationText != ""
    ensures GetNamespaceInfo(namespace, currentHeight, config, nativeNamespaceNames, durationText).expiredInBlock ==
      Some(IntToString(namespace.endHeight.height - config.namespaceGraceDuration - currentHeight) + " ≈ " + durationText)
  {
  }

  /** A native namespace, formatted and then post-processed, never expires:
      it stays active, its remaining blocks read INFINITY, and its end height
      (INFINITY) is kept. */
  lemma NativeNamespaceNeverExpires(
    dto: NamespaceDto, nativeNamespaceNames: Option<seq<string>>, currentHeight: int,
    config: NetworkConfig, durationText: string)
    requires IsNativeNamespace(dto.name, nativeNamespaceNames)
    ensures var info := GetNamespaceInfo(FormatNamespace(dto, nativeNamespaceNames), currentHeight, config, nativeNamespaceNames, durationText);
      info.status == ACTIVE && info.expiredInBlock == Some(INFINITY) &&
      info.beforeEndHeight.None? && info.endHeight == Some(Infinite)
  {
  }

  /** The alias keys of the namespace page follow the SDK alias type: an
      address alias fills `aliasAddress`, a mosaic alias `aliasMosaic`, and no
      alias (or an unknown type) neither. */
  lemma AliasKeysFollowAliasType(
    dto: NamespaceDto, nativeNamespaceNames: Option<seq<string>>, currentHeight: int,
    config: NetworkConfig, durationText: string)
    ensures var info := GetNamespaceInfo(FormatNamespace(dto, nativeNamespaceNames), currentHeight, config, nativeNamespaceNames, durationText);
      (dto.alias.aliasTypeCode == 2 ==> info.aliasAddress == Some(Str(dto.alias.addressPlain)) && info.aliasMosaic.None?) &&
      (dto.alias.aliasTypeCode == 1 ==> info.aliasMosaic == Some(Str(dto.alias.mosaicIdHex)) && info.aliasAddress.None?) &&
      (dto.alias.aliasTypeCode != 1 && dto.alias.aliasTypeCode != 2 ==> info.aliasAddress.None? && info.aliasMosaic.None?)
  {
  }

  // ---------------------------------------------------------------------
  // Namespace receipt lists
  // ---------------------------------------------------------------------

  function NamespaceBalanceTransferFilter(ownerAddress: string): ReceiptFilter {
    ReceiptFilter({Namespace_Rental_Fee}, Some(ownerAddress))
  }

  const NamespaceArtifactExpiryFilter: ReceiptFilter := ReceiptFilter({Namespace_Expired, Namespace_Deleted}, None)

  /** The criteria of `getNamespaceBalanceTransferReceipt`. */
  function NamespaceBalanceTransferCriteria(pageNumber: int, pageSize: int, ownerAddress: string, startHeight: int): SearchCriteria {
    SearchCriteria(pageNumber, pageSize, startHeight, [Namespace_Rental_Fee], Some(ownerAddress))
  }

  /** The criteria of `getNamespaceArtifactExpiryReceipt`. */
  function NamespaceArtifactExpiryCriteria(pageNumber: int, pageSize: int, endHeight: int): SearchCriteria {
    SearchCriteria(pageNumber, pageSize, endHeight, [Namespace_Expired, Namespace_Deleted], None)
  }

  /** `getNamespaceBalanceTransferReceipt` for a namespace owned by
      `ownerAddress` and registered at `startHeight`: the balance-transfer
      statement of the search dispatched to its builder, then filtered by
      sender and type. The builder is taken to keep each receipt's type and
      sender. */
  function GetNamespaceBalanceTransferReceipt(
    search: SearchCriteria -> seq<TransactionStatement>,
    pageNumber: int, pageSize: int, ownerAddress: string, startHeight: int): Result<seq<StampedReceipt>>
  {
    var data := SearchReceipts(search, NamespaceBalanceTransferCriteria(pageNumber, pageSize, ownerAddress, startHeight));
    match CreateReceiptTransactionStatement(data.balanceTransferStatement)
    case Err(e) => Err(e)
    case Ok(call) => Ok(Keep(call.data, NamespaceBalanceTransferFilter(ownerAddress)))
  }

  /** `getNamespaceArtifactExpiryReceipt` for a namespace ending at
      `endHeight`. */
  function GetNamespaceArtifactExpiryReceipt(
    search: SearchCriteria -> seq<TransactionStatement>,
    pageNumber: int, pageSize: int, endHeight: int): Result<seq<StampedReceipt>>
  {
    var data := SearchReceipts(search, NamespaceArtifactExpiryCriteria(pageNumber, pageSize, endHeight));
    match CreateReceiptTransactionStatement(data.artifactExpiryStatement)
    case Err(e) => Err(e)
    case Ok(call) => Ok(Keep(call.data, NamespaceArtifactExpiryFilter))
  }

  /** Whatever the search returns, the balance-transfer list holds exactly
      its namespace rental fees paid by the owner, in order. */
  lemma NamespaceBalanceTransferIsRentalFees(
    search: SearchCriteria -> seq<TransactionStatement>,
    pageNumber: int, pageSize: int, ownerAddress: string, startHeight: int, x: StampedReceipt)
    ensures var found := AllStamped(search(NamespaceBalanceTransferCriteria(pageNumber, pageSize, ownerAddress, startHeight)));
      var r := GetNamespaceBalanceTransferReceipt(search, pageNumber, pageSize, ownerAddress, startHeight);
      r == Ok(Keep(found, NamespaceBalanceTransferFilter(ownerAddress))) &&
      (x in r.value <==>
        x in found && x.receipt.receiptType == Namespace_Rental_Fee && x.receipt.senderAddress == Some(ownerAddress))
  {
    var statements := search(NamespaceBalanceTransferCriteria(pageNumber, pageSize, ownerAddress, startHeight));
    var found := AllStamped(statements);
    assert GetNamespaceBalanceTransferReceipt(search, pageNumber, pageSize, ownerAddress, startHeight) ==
           Ok(Keep(found, NamespaceBalanceTransferFilter(ownerAddress))) by {
      BuilderDispatchRoundTrip(statements, BalanceTransfer);
      KeepOfSelect(found, BalanceTransfer, NamespaceBalanceTransferFilter(ownerAddress));
    }
    KeepMembership(found, NamespaceBalanceTransferFilter(ownerAddress), x);
  }

  /** Whatever the search returns, the artifact-expiry list holds exactly its
      namespace expiry and deletion receipts, in order. */
  lemma NamespaceArtifactExpiryIsExpiries(
    search: SearchCriteria -> seq<TransactionStatement>,
    pageNumber: int, pageSize: int, endHeight: int, x: StampedReceipt)
    ensures var found := AllStamped(search(NamespaceArtifactExpiryCriteria(pageNumber, pageSize, endHeight)));
      var r := GetNamespaceArtifactExpiryReceipt(search, pageNumber, pageSize, endHeight);
      r == Ok(Keep(found, NamespaceArtifactExpiryFilter)) &&
      (x in r.value <==>
        x in found && (x.receipt.receiptType == Namespace_Expired || x.receipt.receiptType == Namespace_Deleted))
  {
    var statements := search(NamespaceArtifactExpiryCriteria(pageNumber, pageSize, endHeight));
    var found := AllStamped(statements);
    assert GetNamespaceArtifactExpiryReceipt(search, pageNumber, pageSize, endHeight) ==
           Ok(Keep(found, NamespaceArtifactExpiryFilter)) by {
      BuilderDispatchRoundTrip(statements, ArtifactExpiry);
      KeepOfSelect(found, ArtifactExpiry, NamespaceArtifactExpiryFilter);
    }
    KeepMembership(found, NamespaceArtifactExpiryFilter, x);
  }
}
