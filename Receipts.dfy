/** Receipt classification and resolution formatting of the receipt service
    (src/infrastructure/ReceiptService.js). */
module Receipts {
  import opened Common

  /** The receipt types of the SDK that the service names; every other type
      is `OtherReceiptType`. */
  datatype ReceiptType =
    | Harvest_Fee
    | LockHash_Created | LockHash_Completed | LockHash_Expired
    | LockSecret_Created | LockSecret_Completed | LockSecret_Expired
    | Mosaic_Rental_Fee | Namespace_Rental_Fee
    | Mosaic_Expired | Namespace_Expired | Namespace_Deleted
    | Inflation
    | OtherReceiptType(code: int)

  /** A receipt: its type, the plain sender address when it has one, and the
      rest of its fields, which the service copies without reading. */
  datatype Receipt = Receipt(receiptType: ReceiptType, senderAddress: Option<string>, rest: map<string, Value>)

  /** A transaction statement: the block height and its receipts. */
  datatype TransactionStatement = TransactionStatement(height: int, receipts: seq<Receipt>)

  /** `{ ...receipt, height: statement.height }`. */
  datatype StampedReceipt = StampedReceipt(receipt: Receipt, height: int)

  /** The four buckets of `groupTransactionStatement`. */
  datatype Bucket = BalanceChange | BalanceTransfer | InflationBucket | ArtifactExpiry

  /** The `switch` on the receipt type: the bucket a type goes to, if any. */
  function BucketOf(t: ReceiptType): Option<Bucket> {
    match t
    case Harvest_Fee => Some(BalanceChange)
    case LockHash_Created => Some(BalanceChange)
    case LockHash_Completed => Some(BalanceChange)
    case LockHash_Expired => Some(BalanceChange)
    case LockSecret_Created => Some(BalanceChange)
    case LockSecret_Completed => Some(BalanceChange)
    case LockSecret_Expired => Some(BalanceChange)
    case Mosaic_Rental_Fee => Some(BalanceTransfer)
    case Namespace_Rental_Fee => Some(BalanceTransfer)
    case Mosaic_Expired => Some(ArtifactExpiry)
    case Namespace_Expired => Some(ArtifactExpiry)
    case Namespace_Deleted => Some(ArtifactExpiry)
    case Inflation => Some(InflationBucket)
    case OtherReceiptType(_) => None
  }

  predicate InBucket(x: StampedReceipt, k: Bucket) {
    BucketOf(x.receipt.receiptType) == Some(k)
  }

  /** The receipts of one statement, each stamped with `height`. */
  function Stamp(receipts: seq<Receipt>, height: int): (r: seq<StampedReceipt>)
    ensures |r| == |receipts|
    ensures forall j :: 0 <= j < |r| ==> r[j] == StampedReceipt(receipts[j], height)
  {
    if receipts == [] then []
    else Stamp(receipts[..|receipts| - 1], height) + [StampedReceipt(receipts[|receipts| - 1], height)]
  }

  /** Every receipt of every statement, stamped, in statement order and then
      receipt order: the order in which the nested loops visit them. */
  function AllStamped(statements: seq<TransactionStatement>): seq<StampedReceipt> {
    if statements == [] then []
    else
      var last := statements[|statements| - 1];
      AllStamped(statements[..|statements| - 1]) + Stamp(last.receipts, last.height)
  }

  /** The stamped receipts of bucket `k`, in visiting order. */
  function Select(s: seq<StampedReceipt>, k: Bucket): seq<StampedReceipt> {
    if s == [] then []
    else Select(s[..|s| - 1], k) + (if InBucket(s[|s| - 1], k) then [s[|s| - 1]] else [])
  }

  /** The stamped receipts of any bucket, in visiting order. */
  function Classified(s: seq<StampedReceipt>): seq<StampedReceipt> {
    if s == [] then []
    else Classified(s[..|s| - 1]) + (if BucketOf(s[|s| - 1].receipt.receiptType).Some? then [s[|s| - 1]] else [])
  }

  /** The result of `groupTransactionStatement`. */
  datatype Grouped = Grouped(
    balanceChangeReceipt: seq<StampedReceipt>,
    balanceTransferReceipt: seq<StampedReceipt>,
    inflationReceipt: seq<StampedReceipt>,
    artifactExpiryReceipt: seq<StampedReceipt>)

  function BucketField(g: Grouped, k: Bucket): seq<StampedReceipt> {
    match k
    case BalanceChange => g.balanceChangeReceipt
    case BalanceTransfer => g.balanceTransferReceipt
    case InflationBucket => g.inflationReceipt
    case ArtifactExpiry => g.artifactExpiryReceipt
  }

  /** The grouping `groupTransactionStatement` promises: each bucket holds the
      receipts of its types, in visiting order. */
  function GroupOf(s: seq<StampedReceipt>): Grouped {
    Grouped(Select(s, BalanceChange), Select(s, BalanceTransfer), Select(s, InflationBucket), Select(s, ArtifactExpiry))
  }

  /** Pushes one stamped receipt onto the bucket its type selects. */
  function Push(g: Grouped, x: StampedReceipt): Grouped {
    match BucketOf(x.receipt.receiptType)
    case Some(BalanceChange) => g.(balanceChangeReceipt := g.balanceChangeReceipt + [x])
    case Some(BalanceTransfer) => g.(balanceTransferReceipt := g.balanceTransferReceipt + [x])
    case Some(InflationBucket) => g.(inflationReceipt := g.inflationReceipt + [x])
    case Some(ArtifactExpiry) => g.(artifactExpiryReceipt := g.artifactExpiryReceipt + [x])
    case None => g
  }

  lemma GroupOfSnoc(s: seq<StampedReceipt>, x: StampedReceipt)
    ensures GroupOf(s + [x]) == Push(GroupOf(s), x)
  {
    assert (s + [x])[..|s|] == s;
  }

  lemma AllStampedSnoc(statements: seq<TransactionStatement>, i: nat)
    requires i < |statements|
    ensures AllStamped(statements[..i + 1]) == AllStamped(statements[..i]) + Stamp(statements[i].receipts, statements[i].height)
  {
    assert statements[..i + 1][..i] == statements[..i];
  }

  lemma StampSnoc(receipts: seq<Receipt>, j: nat, height: int)
    requires j < |receipts|
    ensures Stamp(receipts[..j + 1], height) == Stamp(receipts[..j], height) + [StampedReceipt(receipts[j], height)]
  {
    assert receipts[..j + 1][..j] == receipts[..j];
  }

  /** `groupTransactionStatement`: a nested walk over the statements and
      their receipts, pushing each onto its bucket. */
  method GroupTransactionStatement(transactionStatement: seq<TransactionStatement>) returns (g: Grouped)
    ensures g == GroupOf(AllStamped(transactionStatement))
  {
    var balanceChangeReceipt: seq<StampedReceipt> := [];
    var balanceTransferReceipt: seq<StampedReceipt> := [];
    var inflationReceipt: seq<StampedReceipt> := [];
    var artifactExpiryReceipt: seq<StampedReceipt> := [];
    var i := 0;
    while i < |transactionStatement|
      invariant 0 <= i <= |transactionStatement|
      invariant Grouped(balanceChangeReceipt, balanceTransferReceipt, inflationReceipt, artifactExpiryReceipt)
        == GroupOf(AllStamped(transactionStatement[..i]))
    {
      var statement := transactionStatement[i];
      var done := AllStamped(transactionStatement[..i]);
      var j := 0;
      assert done + Stamp(statement.receipts[..0], statement.height) == done;
      while j < |statement.receipts|
        invariant 0 <= j <= |statement.receipts|
        invariant Grouped(balanceChangeReceipt, balanceTransferReceipt, inflationReceipt, artifactExpiryReceipt)
          == GroupOf(done + Stamp(statement.receipts[..j], statement.height))
      {
        var receipt := statement.receipts[j];
        var stamped := StampedReceipt(receipt, statement.height);
        StampSnoc(statement.receipts, j, statement.height);
        GroupOfSnoc(done + Stamp(statement.receipts[..j], statement.height), stamped);
        assert done + Stamp(statement.receipts[..j + 1], statement.height)
          == (done + Stamp(statement.receipts[..j], statement.height)) + [stamped];
        match BucketOf(receipt.receiptType) {
          case Some(BalanceChange) =>
            balanceChangeReceipt := balanceChangeReceipt + [stamped];
          case Some(BalanceTransfer) =>
            balanceTransferReceipt := balanceTransferReceipt + [stamped];
          case Some(ArtifactExpiry) =>
            artifactExpiryReceipt := artifactExpiryReceipt + [stamped];
          case Some(InflationBucket) =>
            inflationReceipt := inflationReceipt + [stamped];
          case None =>
        }
        j := j + 1;
      }
      assert statement.receipts[..j] == statement.receipts;
      AllStampedSnoc(transactionStatement, i);
      i := i + 1;
    }
    assert transactionStatement[..i] == transactionStatement;
    g := Grouped(balanceChangeReceipt, balanceTransferReceipt, inflationReceipt, artifactExpiryReceipt);
  }

  /** A stamped receipt is visited exactly when it is receipt `j` of statement
      `i` and carries that statement's height. */
  lemma {:induction false} AllStampedMembership(statements: seq<TransactionStatement>, x: StampedReceipt)
    ensures x in AllStamped(statements) <==>
      exists i, j :: 0 <= i < |statements| && 0 <= j < |statements[i].receipts| &&
        statements[i].receipts[j] == x.receipt && statements[i].height == x.height
  {
    if statements != [] {
      var n := |statements| - 1;
      var init := statements[..n];
      AllStampedMembership(init, x);
      var st := Stamp(statements[n].receipts, statements[n].height);
      assert AllStamped(statements) == AllStamped(init) + st;
      if x in st {
        var j :| 0 <= j < |st| && st[j] == x;
        assert statements[n].receipts[j] == x.receipt;
      }
      if exists i, j :: 0 <= i < |statements| && 0 <= j < |statements[i].receipts| &&
          statements[i].receipts[j] == x.receipt && statements[i].height == x.height {
        var i, j :| 0 <= i < |statements| && 0 <= j < |statements[i].receipts| &&
          statements[i].receipts[j] == x.receipt && statements[i].height == x.height;
        if i == n {
          assert st[j] == x;
        } else {
          assert init[i] == statements[i];
        }
      }
    }
  }

  lemma {:induction false} SelectMembership(s: seq<StampedReceipt>, k: Bucket, x: StampedReceipt)
    ensures x in Select(s, k) <==> x in s && InBucket(x, k)
  {
    if s != [] {
      SelectMembership(s[..|s| - 1], k, x);
      assert s == s[..|s| - 1] + [s[|s| - 1]];
    }
  }

  /** A receipt lands in bucket `k` exactly when its type belongs to `k`, and
      it then carries the height of the statement it came from. */
  lemma GroupMembership(statements: seq<TransactionStatement>, k: Bucket, x: StampedReceipt)
    ensures x in BucketField(GroupOf(AllStamped(statements)), k) <==>
      InBucket(x, k) &&
      exists i, j :: 0 <= i < |statements| && 0 <= j < |statements[i].receipts| &&
        statements[i].receipts[j] == x.receipt && statements[i].height == x.height
  {
    SelectMembership(AllStamped(statements), k, x);
    AllStampedMembership(statements, x);
  }

  /** The four buckets together hold exactly the classified receipts: the
      sizes add up, and receipts of other types are dropped. */
  lemma {:induction false} BucketSizesSum(s: seq<StampedReceipt>)
    ensures |Select(s, BalanceChange)| + |Select(s, BalanceTransfer)| + |Select(s, InflationBucket)| + |Select(s, ArtifactExpiry)|
      == |Classified(s)|
  {
    if s != [] {
      BucketSizesSum(s[..|s| - 1]);
    }
  }

  /** An unclassified receipt adds nothing to any bucket. */
  lemma DroppedReceipt(s: seq<StampedReceipt>, x: StampedReceipt)
    requires BucketOf(x.receipt.receiptType).None?
    ensures GroupOf(s + [x]) == GroupOf(s)
  {
    GroupOfSnoc(s, x);
  }

  // ---------------------------------------------------------------------
  // Tagged statements and the builder dispatch
  // ---------------------------------------------------------------------

  /** The `ReceiptTransactionStatamentType` tags. */
  const BalanceChangeReceiptTag: string := "BalanceChangeReceipt"
  const BalanceTransferReceiptTag: string := "BalanceTransferReceipt"
  const InflationReceiptTag: string := "InflationReceipt"
  const ArtifactExpiryReceiptTag: string := "ArtifactExpiryReceipt"

  function TagOf(k: Bucket): string {
    match k
    case BalanceChange => BalanceChangeReceiptTag
    case BalanceTransfer => BalanceTransferReceiptTag
    case InflationBucket => InflationReceiptTag
    case ArtifactExpiry => ArtifactExpiryReceiptTag
  }

  /** `{ receiptTransactionStatementType, data }`. */
  datatype TaggedStatement = TaggedStatement(receiptTransactionStatementType: string, data: seq<StampedReceipt>)

  datatype TransactionStatements = TransactionStatements(
    balanceChangeStatement: TaggedStatement,
    balanceTransferStatement: TaggedStatement,
    inflationStatement: TaggedStatement,
    artifactExpiryStatement: TaggedStatement)

  function StatementOf(t: TransactionStatements, k: Bucket): TaggedStatement {
    match k
    case BalanceChange => t.balanceChangeStatement
    case BalanceTransfer => t.balanceTransferStatement
    case InflationBucket => t.inflationStatement
    case ArtifactExpiry => t.artifactExpiryStatement
  }

  /** What `transactionStatementBuilder` returns for the statements. */
  function TransactionStatementsOf(statements: seq<TransactionStatement>): TransactionStatements {
    var g := GroupOf(AllStamped(statements));
    TransactionStatements(
      TaggedStatement(BalanceChangeReceiptTag, g.balanceChangeReceipt),
      TaggedStatement(BalanceTransferReceiptTag, g.balanceTransferReceipt),
      TaggedStatement(InflationReceiptTag, g.inflationReceipt),
      TaggedStatement(ArtifactExpiryReceiptTag, g.artifactExpiryReceipt))
  }

  /** `transactionStatementBuilder`: the grouping, each bucket tagged. */
  method TransactionStatementBuilder(transactionStatement: seq<TransactionStatement>) returns (r: TransactionStatements)
    ensures r == TransactionStatementsOf(transactionStatement)
    ensures forall k: Bucket :: StatementOf(r, k).receiptTransactionStatementType == TagOf(k)
    ensures forall k: Bucket :: StatementOf(r, k).data == Select(AllStamped(transactionStatement), k)
  {
    var g := GroupTransactionStatement(transactionStatement);
    r := TransactionStatements(
      TaggedStatement(BalanceChangeReceiptTag, g.balanceChangeReceipt),
      TaggedStatement(BalanceTransferReceiptTag, g.balanceTransferReceipt),
      TaggedStatement(InflationReceiptTag, g.inflationReceipt),
      TaggedStatement(ArtifactExpiryReceiptTag, g.artifactExpiryReceipt));
  }

  /** Which receipt builder runs, and on which data. The builders themselves
      are not part of this model. */
  datatype BuilderCall = BuilderCall(builder: Bucket, data: seq<StampedReceipt>)

  /** `createReceiptTransactionStatement`: dispatch on the tag; any other tag
      throws. */
  function CreateReceiptTransactionStatement(transactionStatement: TaggedStatement): (r: Result<BuilderCall>)
    ensures r.Ok? <==> exists k: Bucket :: transactionStatement.receiptTransactionStatementType == TagOf(k)
    ensures r.Ok? ==>
      TagOf(r.value.builder) == transactionStatement.receiptTransactionStatementType &&
      r.value.data == transactionStatement.data
    ensures r.Err? ==>
      r.message == "Unimplemented receipt transaction statement with type " + transactionStatement.receiptTransactionStatementType
  {
    var tag := transactionStatement.receiptTransactionStatementType;
    if tag == BalanceChangeReceiptTag then
      assert TagOf(BalanceChange) == tag;
      Ok(BuilderCall(BalanceChange, transactionStatement.data))
    else if tag == BalanceTransferReceiptTag then
      assert TagOf(BalanceTransfer) == tag;
      Ok(BuilderCall(BalanceTransfer, transactionStatement.data))
    else if tag == ArtifactExpiryReceiptTag then
      assert TagOf(ArtifactExpiry) == tag;
      Ok(BuilderCall(ArtifactExpiry, transactionStatement.data))
    else if tag == InflationReceiptTag then
      assert TagOf(InflationBucket) == tag;
      Ok(BuilderCall(InflationBucket, transactionStatement.data))
    else
      assert forall k: Bucket :: TagOf(k) != tag;
      Err("Unimplemented receipt transaction statement with type " + tag)
  }

  /** Every statement the builder tags is dispatched to the builder of its
      own bucket, with that bucket's receipts. */
  lemma BuilderDispatchRoundTrip(statements: seq<TransactionStatement>, k: Bucket)
    ensures CreateReceiptTransactionStatement(StatementOf(TransactionStatementsOf(statements), k))
      == Ok(BuilderCall(k, Select(AllStamped(statements), k)))
  {
  }

  // ---------------------------------------------------------------------
  // searchReceipts
  // ---------------------------------------------------------------------

  /** The receipt search criteria the namespace and mosaic pages send. */
  datatype SearchCriteria = SearchCriteria(
    pageNumber: int, pageSize: int, height: int,
    receiptTypes: seq<ReceiptType>, senderAddress: Option<string>)

  /** `searchReceipts`: the statements the node's receipt repository returns
      for the criteria (a parameter: the network is not modelled), put
      through `transactionStatementBuilder`. */
  function SearchReceipts(search: SearchCriteria -> seq<TransactionStatement>, criteria: SearchCriteria): TransactionStatements {
    TransactionStatementsOf(search(criteria))
  }

  // ---------------------------------------------------------------------
  // Receipt filters of the namespace and mosaic pages
  // ---------------------------------------------------------------------

  /** A `filter` over formatted receipts: the types kept and, when given, the
      sender they must have. */
  datatype ReceiptFilter = ReceiptFilter(types: set<ReceiptType>, sender: Option<string>)

  predicate Keeps(f: ReceiptFilter, x: StampedReceipt) {
    x.receipt.receiptType in f.types && (f.sender.None? || x.receipt.senderAddress == f.sender)
  }

  function Keep(s: seq<StampedReceipt>, f: ReceiptFilter): seq<StampedReceipt> {
    if s == [] then []
    else Keep(s[..|s| - 1], f) + (if Keeps(f, s[|s| - 1]) then [s[|s| - 1]] else [])
  }

  lemma {:induction false} KeepMembership(s: seq<StampedReceipt>, f: ReceiptFilter, x: StampedReceipt)
    ensures x in Keep(s, f) <==> x in s && Keeps(f, x)
  {
    if s != [] {
      KeepMembership(s[..|s| - 1], f, x);
      assert s == s[..|s| - 1] + [s[|s| - 1]];
    }
  }

  /** Filtering a bucket by types that all belong to it is the same as
      filtering every visited receipt: the bucket loses nothing the filter
      would keep. */
  lemma {:induction false} KeepOfSelect(s: seq<StampedReceipt>, k: Bucket, f: ReceiptFilter)
    requires forall t :: t in f.types ==> BucketOf(t) == Some(k)
    ensures Keep(Select(s, k), f) == Keep(s, f)
  {
    if s != [] {
      var init, last := s[..|s| - 1], s[|s| - 1];
      KeepOfSelect(init, k, f);
      var sel := Select(init, k);
      if InBucket(last, k) {
        assert (sel + [last])[..|sel|] == sel;
      } else {
        assert Select(s, k) == sel;
      }
    }
  }

  // ---------------------------------------------------------------------
  // formatResolutionStatement
  // ---------------------------------------------------------------------

  /** `ResolutionType.Address` and `ResolutionType.Mosaic` of the SDK. */
  const AddressResolutionType: int := 0
  const MosaicResolutionType: int := 1

  /** A resolved value: what `.resolved.address` and `.resolved.toHex()`
      read from it. */
  datatype Resolved = Resolved(address: string, hex: string)

  /** A resolution statement, with its unresolved id as hex. */
  datatype ResolutionStatement = ResolutionStatement(height: int, resolutionType: int, unresolvedHex: string, resolutionEntries: seq<Resolved>)

  datatype FormattedResolution =
    | AddressResolution(height: int, resolutionTypeName: string, unresolved: string, addressResolutionEntries: seq<string>)
    | MosaicResolution(height: int, resolutionTypeName: string, unresolved: string, mosaicResolutionEntries: seq<string>)

  /** `Constants.ResolutionType[...]` for the two types. */
  function ResolutionTypeName(t: int): string {
    if t == AddressResolutionType then "Address" else "Mosaic"
  }

  function AddressesOf(entries: seq<Resolved>): (r: seq<string>)
    ensures |r| == |entries| && forall j :: 0 <= j < |r| ==> r[j] == entries[j].address
  {
    if entries == [] then [] else [entries[0].address] + AddressesOf(entries[1..])
  }

  function HexesOf(entries: seq<Resolved>): (r: seq<string>)
    ensures |r| == |entries| && forall j :: 0 <= j < |r| ==> r[j] == entries[j].hex
  {
    if entries == [] then [] else [entries[0].hex] + HexesOf(entries[1..])
  }

  /** One statement of `formatResolutionStatement`; `None` is the undefined
      the callback returns for any other resolution type. */
  function FormatOneResolution(statement: ResolutionStatement): Option<FormattedResolution> {
    if statement.resolutionType == AddressResolutionType then
      Some(AddressResolution(statement.height, ResolutionTypeName(statement.resolutionType),
                             statement.unresolvedHex, AddressesOf(statement.resolutionEntries)))
    else if statement.resolutionType == MosaicResolutionType then
      Some(MosaicResolution(statement.height, ResolutionTypeName(statement.resolutionType),
                            statement.unresolvedHex, HexesOf(statement.resolutionEntries)))
    else None
  }

  /** `formatResolutionStatement`: the list mapped statement by statement. */
  function FormatResolutionStatement(resolutionStatement: seq<ResolutionStatement>): (r: seq<Option<FormattedResolution>>)
    ensures |r| == |resolutionStatement|
    ensures forall i :: 0 <= i < |r| ==>
      var st := resolutionStatement[i];
      (st.resolutionType == AddressResolutionType ==>
        r[i].Some? && r[i].value.AddressResolution? && r[i].value.resolutionTypeName == "Address" &&
        r[i].value.unresolved == st.unresolvedHex &&
        |r[i].value.addressResolutionEntries| == |st.resolutionEntries| &&
        forall j :: 0 <= j < |st.resolutionEntries| ==> r[i].value.addressResolutionEntries[j] == st.resolutionEntries[j].address) &&
      (st.resolutionType == MosaicResolutionType ==>
        r[i].Some? && r[i].value.MosaicResolution? && r[i].value.resolutionTypeName == "Mosaic" &&
        r[i].value.unresolved == st.unresolvedHex &&
        |r[i].value.mosaicResolutionEntries| == |st.resolutionEntries| &&
        forall j :: 0 <= j < |st.resolutionEntries| ==> r[i].value.mosaicResolutionEntries[j] == st.resolutionEntries[j].hex) &&
      (st.resolutionType != AddressResolutionType && st.resolutionType != MosaicResolutionType ==> r[i].None?)
  {
    if resolutionStatement == [] then []
    else [FormatOneResolution(resolutionStatement[0])] + FormatResolutionStatement(resolutionStatement[1..])
  }
}
