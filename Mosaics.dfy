/** Alias lookup, expiry and list reshaping of the mosaic service
    (src/infrastructure/MosaicService.js). */
module Mosaics {
  import opened Common
  import opened Helper
  import opened Receipts

  /** A formatted `MosaicNames` entry: a mosaic id as hex and its alias names. */
  datatype MosaicNamesEntry = MosaicNamesEntry(mosaicId: string, names: seq<string>)

  /** `mosaicNames.find(name => name.mosaicId === mosaicId)`. */
  function FindMosaicNames(mosaicNames: seq<MosaicNamesEntry>, mosaicId: string): (r: Option<MosaicNamesEntry>)
    ensures r.None? <==> forall i :: 0 <= i < |mosaicNames| ==> mosaicNames[i].mosaicId != mosaicId
    ensures r.Some? ==>
      exists i :: 0 <= i < |mosaicNames| && mosaicNames[i] == r.value &&
        r.value.mosaicId == mosaicId && forall j :: 0 <= j < i ==> mosaicNames[j].mosaicId != mosaicId
  {
    if mosaicNames == [] then None
    else if mosaicNames[0].mosaicId == mosaicId then Some(mosaicNames[0])
    else
      var r := FindMosaicNames(mosaicNames[1..], mosaicId);
      assert forall i :: 1 <= i < |mosaicNames| ==> mosaicNames[i] == mosaicNames[1..][i - 1];
      if r.Some? then
        var i :| 0 <= i < |mosaicNames[1..]| && mosaicNames[1..][i] == r.value &&
          r.value.mosaicId == mosaicId && forall j :: 0 <= j < i ==> mosaicNames[1..][j].mosaicId != mosaicId;
        assert mosaicNames[i + 1] == r.value;
        r
      else r
  }

  /** `extractMosaicNamespace`: the alias names of the first entry for the
      mosaic, or `[UNAVAILABLE]` when it has none. Without an entry, reading
      `names` of undefined throws. */
  function ExtractMosaicNamespace(mosaicId: string, mosaicNames: seq<MosaicNamesEntry>): (r: Result<seq<string>>)
    ensures r.Err? <==> forall i :: 0 <= i < |mosaicNames| ==> mosaicNames[i].mosaicId != mosaicId
    ensures r.Ok? ==> |r.value| >= 1
    ensures r.Ok? ==>
      var entry := FindMosaicNames(mosaicNames, mosaicId).value;
      r.value == (if |entry.names| > 0 then entry.names else [UNAVAILABLE])
  {
    match FindMosaicNames(mosaicNames, mosaicId)
    case None => Err("Cannot read property 'names' of undefined")
    case Some(entry) => Ok(if |entry.names| > 0 then entry.names else [UNAVAILABLE])
  }

  function StrValues(names: seq<string>): (r: seq<Value>)
    ensures |r| == |names| && forall i :: 0 <= i < |r| ==> r[i] == Str(names[i])
  {
    if names == [] then [] else [Str(names[0])] + StrValues(names[1..])
  }

  /** The alias names found here, shown by `getMosaicName`, give the first
      alias name, or the mosaic id when the mosaic has no alias (the
      UNAVAILABLE placeholder is the "N/A" the helper checks for). */
  lemma MosaicNameOfExtractedAliases(mosaicId: string, mosaicNames: seq<MosaicNamesEntry>)
    requires ExtractMosaicNamespace(mosaicId, mosaicNames).Ok?
    ensures var names := ExtractMosaicNamespace(mosaicId, mosaicNames).value;
      GetMosaicName(NamedMosaic(Arr(StrValues(names)), Str(mosaicId))) ==
        (if names[0] == UNAVAILABLE then Str(mosaicId) else Str(names[0]))
    ensures var entry := FindMosaicNames(mosaicNames, mosaicId).value;
      entry.names == [] ==> GetMosaicName(NamedMosaic(Arr(StrValues(ExtractMosaicNamespace(mosaicId, mosaicNames).value)), Str(mosaicId))) == Str(mosaicId)
  {
  }

  // ---------------------------------------------------------------------
  // getMosaicInfo and getMosaicList
  // ---------------------------------------------------------------------

  /** The fields of a formatted mosaic info that these rules read; `rest`
      stands for the other formatted fields, copied as they are. */
  datatype MosaicInfo = MosaicInfo(mosaicId: string, address: string, startHeight: int, duration: int, rest: map<string, Value>)

  /** `expiredInBlock` of `getMosaicInfo`: the height the mosaic expires at,
      or INFINITY when that sum equals the start height. */
  function MosaicExpiredInBlock(mosaicInfo: MosaicInfo): (r: Value)
    ensures r == Str(INFINITY) <==> mosaicInfo.duration == 0
    ensures mosaicInfo.duration != 0 ==> r == Num(mosaicInfo.startHeight + mosaicInfo.duration)
  {
    var expiredInBlock := mosaicInfo.duration + mosaicInfo.startHeight;
    if expiredInBlock == mosaicInfo.startHeight then Str(INFINITY) else Num(expiredInBlock)
  }

  datatype MosaicInfoView = MosaicInfoView(mosaic: MosaicInfo, mosaicAliasNames: seq<string>, expiredInBlock: Value)

  /** `getMosaicInfo` once the mosaic and its names are fetched. */
  function GetMosaicInfo(mosaicInfo: MosaicInfo, mosaicNames: seq<MosaicNamesEntry>): (r: Result<MosaicInfoView>)
    ensures r.Ok? <==> ExtractMosaicNamespace(mosaicInfo.mosaicId, mosaicNames).Ok?
    ensures r.Ok? ==>
      r.value.mosaic == mosaicInfo && r.value.expiredInBlock == MosaicExpiredInBlock(mosaicInfo) &&
      r.value.mosaicAliasNames == ExtractMosaicNamespace(mosaicInfo.mosaicId, mosaicNames).value
  {
    match ExtractMosaicNamespace(mosaicInfo.mosaicId, mosaicNames)
    case Err(e) => Err(e)
    case Ok(names) => Ok(MosaicInfoView(mosaicInfo, names, MosaicExpiredInBlock(mosaicInfo)))
  }

  /** One row of `getMosaicList`. */
  datatype MosaicListItem = MosaicListItem(mosaic: MosaicInfo, ownerAddress: string, mosaicAliasNames: seq<string>)

  /** The `data` of `getMosaicList`: each mosaic with its owner and alias
      names; the first mosaic without a names entry throws. */
  function GetMosaicList(data: seq<MosaicInfo>, mosaicNames: seq<MosaicNamesEntry>): Result<seq<MosaicListItem>> {
    if data == [] then Ok([])
    else
      match ExtractMosaicNamespace(data[0].mosaicId, mosaicNames)
      case Err(e) => Err(e)
      case Ok(names) =>
        match GetMosaicList(data[1..], mosaicNames)
        case Err(e) => Err(e)
        case Ok(rest) => Ok([MosaicListItem(data[0], data[0].address, names)] + rest)
  }

  /** The list keeps the length and order of `data`; each row is its mosaic
      with `ownerAddress` its address and its extracted alias names; the
      list fails exactly when some mosaic has no names entry. */
  lemma {:induction false} GetMosaicListShape(data: seq<MosaicInfo>, mosaicNames: seq<MosaicNamesEntry>)
    ensures GetMosaicList(data, mosaicNames).Ok? <==>
      forall i :: 0 <= i < |data| ==> ExtractMosaicNamespace(data[i].mosaicId, mosaicNames).Ok?
    ensures GetMosaicList(data, mosaicNames).Ok? ==>
      var r := GetMosaicList(data, mosaicNames).value;
      |r| == |data| &&
      forall i :: 0 <= i < |data| ==>
        r[i].mosaic == data[i] && r[i].ownerAddress == data[i].address &&
        r[i].mosaicAliasNames == ExtractMosaicNamespace(data[i].mosaicId, mosaicNames).value
  {
    if data != [] {
      GetMosaicListShape(data[1..], mosaicNames);
      assert forall i :: 1 <= i < |data| ==> data[i] == data[1..][i - 1];
    }
  }

  // ---------------------------------------------------------------------
  // Mosaic receipt lists
  // ---------------------------------------------------------------------

  function MosaicBalanceTransferCriteria(pageNumber: int, pageSize: int, mosaic: MosaicInfo): SearchCriteria {
    SearchCriteria(pageNumber, pageSize, mosaic.startHeight, [Mosaic_Rental_Fee], Some(mosaic.address))
  }

  function MosaicBalanceTransferFilter(address: string): ReceiptFilter {
    ReceiptFilter({Mosaic_Rental_Fee}, Some(address))
  }

  /** `getMosaicBalanceTransferReceipt`: the search's balance-transfer
      statement dispatched, then filtered by the owner address and type. */
  function GetMosaicBalanceTransferReceipt(
    search: SearchCriteria -> seq<TransactionStatement>,
    pageNumber: int, pageSize: int, mosaic: MosaicInfo): Result<seq<StampedReceipt>>
  {
    var data := SearchReceipts(search, MosaicBalanceTransferCriteria(pageNumber, pageSize, mosaic));
    match CreateReceiptTransactionStatement(data.balanceTransferStatement)
    case Err(e) => Err(e)
    case Ok(call) => Ok(Keep(call.data, MosaicBalanceTransferFilter(mosaic.address)))
  }

  /** Whatever the search returns, the list holds exactly its mosaic rental
      fees sent by the mosaic's owner, in order. */
  lemma MosaicBalanceTransferIsRentalFees(
    search: SearchCriteria -> seq<TransactionStatement>,
    pageNumber: int, pageSize: int, mosaic: MosaicInfo, x: StampedReceipt)
    ensures var found := AllStamped(search(MosaicBalanceTransferCriteria(pageNumber, pageSize, mosaic)));
      var r := GetMosaicBalanceTransferReceipt(search, pageNumber, pageSize, mosaic);
      r == Ok(Keep(found, MosaicBalanceTransferFilter(mosaic.address))) &&
      (x in r.value <==>
        x in found && x.receipt.receiptType == Mosaic_Rental_Fee && x.receipt.senderAddress == Some(mosaic.address))
  {
    var statements := search(MosaicBalanceTransferCriteria(pageNumber, pageSize, mosaic));
    var found := AllStamped(statements);
    assert GetMosaicBalanceTransferReceipt(search, pageNumber, pageSize, mosaic) ==
           Ok(Keep(found, MosaicBalanceTransferFilter(mosaic.address))) by {
      BuilderDispatchRoundTrip(statements, BalanceTransfer);
      KeepOfSelect(found, BalanceTransfer, MosaicBalanceTransferFilter(mosaic.address));
    }
    KeepMembership(found, MosaicBalanceTransferFilter(mosaic.address), x);
  }

  const MosaicArtifactExpiryFilter: ReceiptFilter := ReceiptFilter({Mosaic_Expired}, None)

  /** `getMosaicArtifactExpiryReceipt` returns either `{}` or a page. */
  datatype ArtifactExpiryPage = EmptyObject | Page(data: Result<seq<StampedReceipt>>)

  /** `getMosaicArtifactExpiryReceipt`: no search at all for a mosaic that
      never expires; otherwise the search at its end height, dispatched and
      filtered to mosaic expiry receipts. */
  function GetMosaicArtifactExpiryReceipt(
    search: SearchCriteria -> seq<TransactionStatement>,
    pageNumber: int, pageSize: int, mosaic: MosaicInfo): ArtifactExpiryPage
  {
    var endHeight := mosaic.startHeight + mosaic.duration;
    if endHeight == mosaic.startHeight then EmptyObject
    else
      var data := SearchReceipts(search, SearchCriteria(pageNumber, pageSize, endHeight, [Mosaic_Expired], None));
      match CreateReceiptTransactionStatement(data.artifactExpiryStatement)
      case Err(e) => Page(Err(e))
      case Ok(call) => Page(Ok(Keep(call.data, MosaicArtifactExpiryFilter)))
  }

  /** A mosaic that expires gets the page of the mosaic expiry receipts
      among those the search finds at its end height. */
  lemma MosaicArtifactExpiryPage(
    search: SearchCriteria -> seq<TransactionStatement>,
    pageNumber: int, pageSize: int, mosaic: MosaicInfo)
    requires mosaic.duration != 0
    ensures var criteria := SearchCriteria(pageNumber, pageSize, mosaic.startHeight + mosaic.duration, [Mosaic_Expired], None);
      GetMosaicArtifactExpiryReceipt(search, pageNumber, pageSize, mosaic) ==
      Page(Ok(Keep(AllStamped(search(criteria)), MosaicArtifactExpiryFilter)))
  {
    var criteria := SearchCriteria(pageNumber, pageSize, mosaic.startHeight + mosaic.duration, [Mosaic_Expired], None);
    var statements := search(criteria);
    var found := AllStamped(statements);
    var call := CreateReceiptTransactionStatement(SearchReceipts(search, criteria).artifactExpiryStatement);
    assert call == Ok(BuilderCall(ArtifactExpiry, Select(found, ArtifactExpiry))) by {
      BuilderDispatchRoundTrip(statements, ArtifactExpiry);
    }
    assert Keep(call.value.data, MosaicArtifactExpiryFilter) == Keep(found, MosaicArtifactExpiryFilter) by {
      KeepOfSelect(found, ArtifactExpiry, MosaicArtifactExpiryFilter);
    }
  }

  /** A mosaic that expires gets exactly the mosaic expiry receipts the
      search finds at its end height, in order. */
  lemma MosaicArtifactExpiryFound(
    search: SearchCriteria -> seq<TransactionStatement>,
    pageNumber: int, pageSize: int, mosaic: MosaicInfo, x: StampedReceipt)
    requires mosaic.duration != 0
    ensures var criteria := SearchCriteria(pageNumber, pageSize, mosaic.startHeight + mosaic.duration, [Mosaic_Expired], None);
      var found := AllStamped(search(criteria));
      var r := GetMosaicArtifactExpiryReceipt(search, pageNumber, pageSize, mosaic);
      r == Page(Ok(Keep(found, MosaicArtifactExpiryFilter))) &&
      (x in r.data.value <==> x in found && x.receipt.receiptType == Mosaic_Expired)
  {
    var criteria := SearchCriteria(pageNumber, pageSize, mosaic.startHeight + mosaic.duration, [Mosaic_Expired], None);
    MosaicArtifactExpiryPage(search, pageNumber, pageSize, mosaic);
    KeepMembership(AllStamped(search(criteria)), MosaicArtifactExpiryFilter, x);
  }

  /** A mosaic of duration 0 gets `{}` whatever the search would return (the
      search is not consulted); any other mosaic gets exactly the mosaic
      expiry receipts found at its end height, in order. */
  lemma MosaicArtifactExpiryRules(
    search: SearchCriteria -> seq<TransactionStatement>, other: SearchCriteria -> seq<TransactionStatement>,
    pageNumber: int, pageSize: int, mosaic: MosaicInfo, x: StampedReceipt)
    ensures mosaic.duration == 0 ==>
      GetMosaicArtifactExpiryReceipt(search, pageNumber, pageSize, mosaic) == EmptyObject ==
      GetMosaicArtifactExpiryReceipt(other, pageNumber, pageSize, mosaic)
    ensures mosaic.duration != 0 ==>
      var criteria := SearchCriteria(pageNumber, pageSize, mosaic.startHeight + mosaic.duration, [Mosaic_Expired], None);
      var found := AllStamped(search(criteria));
      var r := GetMosaicArtifactExpiryReceipt(search, pageNumber, pageSize, mosaic);
      r == Page(Ok(Keep(found, MosaicArtifactExpiryFilter))) &&
      (x in r.data.value <==> x in found && x.receipt.receiptType == Mosaic_Expired)
  {
    if mosaic.duration != 0 {
      MosaicArtifactExpiryFound(search, pageNumber, pageSize, mosaic, x);
    }
  }
}
