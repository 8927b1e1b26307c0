/** The block store of the explorer (src/store/block.js): its own state (the
    initialized flag, the new-block subscription handle and the height of the
    block on display) and the actions that change it in sequence. The data
    managers (`timeline`, `blockTransactions`, `receipt`, `blockReceipts`,
    `info`), the listener service, the `chain` and `ui` stores are outside the
    store; every call into them is recorded, in order, in a call log. */
module BlockStore {
  import opened Common

  /** The data managers of the block store. */
  datatype Manager = Timeline | BlockTransactions | Receipt | BlockReceipts | Info

  /** One part of a new-block subscription handle as the listener returns it. */
  datatype HandlePart = HandlePart(id: int)

  /** A call the store makes into code outside it. `storeHeight` is the
      store's `currentBlockHeight` when the manager's fetch starts, which is
      the height its fetch function reads. */
  datatype Call =
    | OpenSubscription(wsEndpoint: Value)
    | HandleUnsubscribe(part: HandlePart)
    | HandleClose(part: HandlePart)
    | DispatchChainInfo
    | InitialFetch(manager: Manager, height: Value, storeHeight: Value)
    | Uninitialize(manager: Manager)
    | AddLatestItem(item: map<string, Value>, key: string)
    | OpenPage(pageName: string, param: Option<int>)

  /** The store's state together with the log of its outside calls. */
  datatype StoreState = StoreState(
    initialized: bool,
    subscription: Option<seq<HandlePart>>,
    currentBlockHeight: Value,
    calls: seq<Call>)

  // -----------------------------------------------------------------------
  // The actions as transitions of the state
  // -----------------------------------------------------------------------

  /** `subscribe`: opens a subscription and stores its handle only when no
      handle is stored. */
  function SubscribeStep(s: StoreState, handle: seq<HandlePart>, wsEndpoint: Value): StoreState {
    if s.subscription.None?
    then s.(subscription := Some(handle), calls := s.calls + [OpenSubscription(wsEndpoint)])
    else s
  }

  /** `unsubscribe`: a two-part handle is unsubscribed (part 1), closed (part 0)
      and cleared; any other stored value is left alone. */
  function UnsubscribeStep(s: StoreState): StoreState {
    match s.subscription
    case Some(h) =>
      if |h| == 2
      then s.(subscription := None, calls := s.calls + [HandleUnsubscribe(h[1]), HandleClose(h[0])])
      else s
    case None => s
  }

  /** The calls of `uninitializeDetail`, in order. */
  const DetailUninitializes: seq<Call> :=
    [Uninitialize(Info), Uninitialize(BlockReceipts), Uninitialize(BlockTransactions), Uninitialize(Receipt)]

  function UninitializeDetailStep(s: StoreState): StoreState {
    s.(calls := s.calls + DetailUninitializes)
  }

  /** The four detail fetches of `fetchBlockInfo`, each started after the
      height was committed. */
  function DetailFetches(height: Value): seq<Call> {
    [InitialFetch(Info, height, height), InitialFetch(BlockReceipts, height, height),
     InitialFetch(BlockTransactions, height, height), InitialFetch(Receipt, height, height)]
  }

  function FetchBlockInfoStep(s: StoreState, height: Value): StoreState {
    var cleared := UninitializeDetailStep(s);
    cleared.(currentBlockHeight := height, calls := cleared.calls + DetailFetches(height))
  }

  /** `initializePage`: refresh the chain info, then fetch the timeline. */
  function InitializePageStep(s: StoreState): StoreState {
    s.(calls := s.calls + [DispatchChainInfo, InitialFetch(Timeline, Undefined, s.currentBlockHeight)])
  }

  /** The callback `initialize` hands to its lock: first the page, then the subscription. */
  function InitializeCallbackStep(s: StoreState, handle: seq<HandlePart>, wsEndpoint: Value): StoreState {
    SubscribeStep(InitializePageStep(s), handle, wsEndpoint)
  }

  /** The callback `uninitialize` hands to its lock. */
  function UninitializeCallbackStep(s: StoreState): StoreState {
    var t := UninitializeDetailStep(UnsubscribeStep(s));
    t.(calls := t.calls + [Uninitialize(Timeline)])
  }

  /** The block record the new-block callback adds to the timeline. */
  function LatestItem(latestBlock: map<string, Value>, age: Value): map<string, Value> {
    latestBlock + map["age" := age, "harvester" := Get(latestBlock, "signer")]
  }

  /** The new-block callback: the timeline receives the block keyed by
      `height`, then the chain info is refreshed. */
  function NewBlockStep(s: StoreState, latestBlock: map<string, Value>, age: Value): StoreState {
    s.(calls := s.calls + [AddLatestItem(LatestItem(latestBlock, age), "height"), DispatchChainInfo])
  }

  /** `+h + 1`, with NaN as `None`. */
  function PlusOne(h: Value): Option<int> {
    match ToNumber(h)
    case Some(n) => Some(n + 1)
    case None => None
  }

  /** `nextBlock`: opens the following block while the block on display is
      below the chain height. */
  function NextBlockStep(s: StoreState, chainHeight: Value): StoreState {
    if JsLess(s.currentBlockHeight, chainHeight)
    then s.(calls := s.calls + [OpenPage("block", PlusOne(s.currentBlockHeight))])
    else s
  }

  /** `previousBlock`: opens the preceding block while the block on display
      is above 1. */
  function PreviousBlockStep(s: StoreState): StoreState {
    match ToNumber(s.currentBlockHeight)
    case Some(n) => if n > 1 then s.(calls := s.calls + [OpenPage("block", Some(n - 1))]) else s
    case None => s
  }

  // -----------------------------------------------------------------------
  // Properties of the transitions
  // -----------------------------------------------------------------------

  /** Subscribing stores the new handle and opens one subscription exactly
      when no handle is stored, and changes nothing otherwise. */
  lemma SubscribeOnlyWhenNone(s: StoreState, handle: seq<HandlePart>, wsEndpoint: Value)
    ensures s.subscription.None? ==>
      SubscribeStep(s, handle, wsEndpoint).subscription == Some(handle) &&
      SubscribeStep(s, handle, wsEndpoint).calls == s.calls + [OpenSubscription(wsEndpoint)]
    ensures s.subscription.Some? ==> SubscribeStep(s, handle, wsEndpoint) == s
  {
  }

  /** Unsubscribing a two-part handle unsubscribes part 1, then closes part 0,
      then clears the handle; repeating it changes nothing more. */
  lemma UnsubscribeOnceThenIdle(s: StoreState)
    ensures s.subscription.Some? && |s.subscription.value| == 2 ==>
      var h := s.subscription.value;
      UnsubscribeStep(s) == s.(subscription := None,
                                calls := s.calls + [HandleUnsubscribe(h[1]), HandleClose(h[0])])
    ensures !(s.subscription.Some? && |s.subscription.value| == 2) ==> UnsubscribeStep(s) == s
    ensures UnsubscribeStep(UnsubscribeStep(s)) == UnsubscribeStep(s)
  {
  }

  /** A stored handle that does not have two parts is never closed and never
      replaced: neither action touches the store again. */
  lemma OddHandleStays(s: StoreState, handle: seq<HandlePart>, wsEndpoint: Value)
    requires s.subscription.Some? && |s.subscription.value| != 2
    ensures UnsubscribeStep(s) == s
    ensures SubscribeStep(s, handle, wsEndpoint) == s
    ensures UninitializeCallbackStep(s).subscription == s.subscription
  {
  }

  /** After the uninitialize callback, a later initialize callback subscribes
      again with the new handle, whenever the old handle had two parts or
      none was stored. */
  lemma ResubscribeAfterUninitialize(s: StoreState, handle: seq<HandlePart>, wsEndpoint: Value)
    requires s.subscription.None? || |s.subscription.value| == 2
    ensures InitializeCallbackStep(UninitializeCallbackStep(s), handle, wsEndpoint).subscription
            == Some(handle)
  {
  }

  /** `fetchBlockInfo` uninitializes the four detail managers, commits the
      height, and then starts the four fetches with it, in this order; the
      subscription and the flag stay as they were. */
  lemma FetchBlockInfoOrder(s: StoreState, height: Value)
    ensures var t := FetchBlockInfoStep(s, height);
      t.currentBlockHeight == height &&
      t.subscription == s.subscription && t.initialized == s.initialized &&
      t.calls == s.calls + [Uninitialize(Info), Uninitialize(BlockReceipts),
                            Uninitialize(BlockTransactions), Uninitialize(Receipt),
                            InitialFetch(Info, height, height), InitialFetch(BlockReceipts, height, height),
                            InitialFetch(BlockTransactions, height, height), InitialFetch(Receipt, height, height)]
    ensures forall i :: |s.calls| <= i < |FetchBlockInfoStep(s, height).calls| &&
                        FetchBlockInfoStep(s, height).calls[i].InitialFetch? ==>
      FetchBlockInfoStep(s, height).calls[i].storeHeight == height
  {
    var t := FetchBlockInfoStep(s, height);
    assert t.calls == s.calls + DetailUninitializes + DetailFetches(height);
  }

  /** The uninitialize callback unsubscribes, uninitializes the details, and
      then the timeline. */
  lemma UninitializeCallbackOrder(s: StoreState)
    ensures UninitializeCallbackStep(s).calls ==
            UnsubscribeStep(s).calls + DetailUninitializes + [Uninitialize(Timeline)]
    ensures UninitializeCallbackStep(s).currentBlockHeight == s.currentBlockHeight
  {
  }

  /** A new block reaches the timeline keyed by its height and carrying its
      age and its signer as harvester, before the chain info is refreshed. */
  lemma NewBlockReachesTimelineByHeight(s: StoreState, latestBlock: map<string, Value>, age: Value)
    ensures var t := NewBlockStep(s, latestBlock, age);
      |t.calls| == |s.calls| + 2 &&
      t.calls[|s.calls|].AddLatestItem? &&
      t.calls[|s.calls|].key == "height" &&
      t.calls[|s.calls|].item["age"] == age &&
      t.calls[|s.calls|].item["harvester"] == Get(latestBlock, "signer") &&
      (forall k :: k in latestBlock && k != "age" && k != "harvester" ==>
         t.calls[|s.calls|].item[k] == latestBlock[k]) &&
      t.calls[|s.calls| + 1] == DispatchChainInfo
  {
  }

  /** `nextBlock` opens a block only while the displayed height is below the
      chain height; for numeric heights that block is the next one and never
      beyond the chain height. */
  lemma NextBlockBounds(s: StoreState, chainHeight: int)
    ensures !JsLess(s.currentBlockHeight, Num(chainHeight)) ==> NextBlockStep(s, Num(chainHeight)) == s
    ensures JsLess(s.currentBlockHeight, Num(chainHeight)) ==>
      var t := NextBlockStep(s, Num(chainHeight));
      ToNumber(s.currentBlockHeight).Some? &&
      t.calls == s.calls + [OpenPage("block", Some(ToNumber(s.currentBlockHeight).value + 1))] &&
      ToNumber(s.currentBlockHeight).value + 1 <= chainHeight
  {
  }

  /** `previousBlock` opens a block only while the displayed height is above
      1, so the block it opens is at least 1. */
  lemma PreviousBlockBounds(s: StoreState)
    ensures PreviousBlockStep(s) != s ==>
      ToNumber(s.currentBlockHeight).Some? && ToNumber(s.currentBlockHeight).value > 1 &&
      PreviousBlockStep(s).calls ==
        s.calls + [OpenPage("block", Some(ToNumber(s.currentBlockHeight).value - 1))] &&
      ToNumber(s.currentBlockHeight).value - 1 >= 1
    ensures PreviousBlockStep(s) == s <==>
      ToNumber(s.currentBlockHeight).None? || ToNumber(s.currentBlockHeight).value <= 1
  {
  }

  // -----------------------------------------------------------------------
  // getRecentList
  // -----------------------------------------------------------------------

  /** `items.filter((item, index) => index < n)`. */
  function KeepIndexBelow(items: seq<Value>, n: nat): seq<Value> {
    if items == [] then []
    else
      KeepIndexBelow(items[..|items| - 1], n)
      + (if |items| - 1 < n then [items[|items| - 1]] else [])
  }

  lemma {:induction false} KeepIndexBelowIsPrefix(items: seq<Value>, n: nat)
    ensures KeepIndexBelow(items, n) == items[..if |items| < n then |items| else n]
  {
    if items != [] {
      var init := items[..|items| - 1];
      KeepIndexBelowIsPrefix(init, n);
      if |items| - 1 < n {
        assert init + [items[|items| - 1]] == items;
      } else {
        assert init[..n] == items[..n];
      }
    }
  }

  /** `getRecentList` on the timeline's data: the first four blocks of an
      array; nothing without data; any other data has no `filter` and the
      getter throws. */
  function GetRecentList(timelineData: Value): (r: Result<seq<Value>>)
    ensures timelineData.Arr? ==>
      var items := timelineData.items;
      r == Ok(items[..if |items| < 4 then |items| else 4])
    ensures timelineData.Undefined? || timelineData.Null? ==> r == Ok([])
    ensures r.Err? <==> !timelineData.Arr? && !timelineData.Undefined? && !timelineData.Null?
  {
    match timelineData
    case Arr(items) =>
      KeepIndexBelowIsPrefix(items, 4);
      Ok(KeepIndexBelow(items, 4))
    case Undefined => Ok([])
    case Null => Ok([])
    case _ => Err("filter is not a function")
  }

  // -----------------------------------------------------------------------
  // The store
  // -----------------------------------------------------------------------

  class Store {
    var initialized: bool
    var subscription: Option<seq<HandlePart>>
    var currentBlockHeight: Value
    var calls: seq<Call>

    /** The state and the call log as one value. */
    function Snapshot(): StoreState
      reads this
    {
      StoreState(initialized, subscription, currentBlockHeight, calls)
    }

    /** The initial state: not initialized, no handle, no height. */
    constructor()
      ensures Snapshot() == StoreState(false, None, Null, [])
    {
      initialized := false;
      subscription := None;
      currentBlockHeight := Null;
      calls := [];
    }

    /** Appends one call to the log. */
    method Record(c: Call)
      modifies this
      ensures Snapshot() == old(Snapshot()).(calls := old(calls) + [c])
    {
      calls := calls + [c];
    }

    /** The `setInitialized` mutation. */
    method SetInitialized(value: bool)
      modifies this
      ensures Snapshot() == old(Snapshot()).(initialized := value)
    {
      initialized := value;
    }

    /** `subscribe`; `handle` is what the listener service answers. */
    method Subscribe(handle: seq<HandlePart>, wsEndpoint: Value)
      modifies this
      ensures Snapshot() == SubscribeStep(old(Snapshot()), handle, wsEndpoint)
    {
      if subscription == None {
        Record(OpenSubscription(wsEndpoint));
        subscription := Some(handle);
      }
    }

    /** `unsubscribe`. */
    method Unsubscribe()
      modifies this
      ensures Snapshot() == UnsubscribeStep(old(Snapshot()))
    {
      if subscription.Some? && |subscription.value| == 2 {
        var h := subscription.value;
        Record(HandleUnsubscribe(h[1]));
        Record(HandleClose(h[0]));
        subscription := None;
      }
    }

    /** `uninitializeDetail`. */
    method UninitializeDetail()
      modifies this
      ensures Snapshot() == UninitializeDetailStep(old(Snapshot()))
    {
      Record(Uninitialize(Info));
      Record(Uninitialize(BlockReceipts));
      Record(Uninitialize(BlockTransactions));
      Record(Uninitialize(Receipt));
    }

    /** `fetchBlockInfo` with the payload's height. */
    method FetchBlockInfo(height: Value)
      modifies this
      ensures Snapshot() == FetchBlockInfoStep(old(Snapshot()), height)
    {
      UninitializeDetail();
      currentBlockHeight := height;
      Record(InitialFetch(Info, height, currentBlockHeight));
      Record(InitialFetch(BlockReceipts, height, currentBlockHeight));
      Record(InitialFetch(BlockTransactions, height, currentBlockHeight));
      Record(InitialFetch(Receipt, height, currentBlockHeight));
    }

    /** `initializePage`. */
    method InitializePage()
      modifies this
      ensures Snapshot() == InitializePageStep(old(Snapshot()))
    {
      Record(DispatchChainInfo);
      Record(InitialFetch(Timeline, Undefined, currentBlockHeight));
    }

    /** The callback of `initialize`. */
    method InitializeCallback(handle: seq<HandlePart>, wsEndpoint: Value)
      modifies this
      ensures Snapshot() == InitializeCallbackStep(old(Snapshot()), handle, wsEndpoint)
    {
      InitializePage();
      Subscribe(handle, wsEndpoint);
    }

    /** The callback of `uninitialize`. */
    method UninitializeCallback()
      modifies this
      ensures Snapshot() == UninitializeCallbackStep(old(Snapshot()))
    {
      Unsubscribe();
      UninitializeDetail();
      Record(Uninitialize(Timeline));
    }

    /** The new-block callback, given the fetched block and its age. */
    method OnNewBlock(latestBlock: map<string, Value>, age: Value)
      modifies this
      ensures Snapshot() == NewBlockStep(old(Snapshot()), latestBlock, age)
    {
      Record(AddLatestItem(LatestItem(latestBlock, age), "height"));
      Record(DispatchChainInfo);
    }

    /** `nextBlock`, given the chain store's current height. */
    method NextBlock(chainHeight: Value)
      modifies this
      ensures Snapshot() == NextBlockStep(old(Snapshot()), chainHeight)
    {
      if JsLess(currentBlockHeight, chainHeight) {
        Record(OpenPage("block", PlusOne(currentBlockHeight)));
      }
    }

    /** `previousBlock`. */
    method PreviousBlock()
      modifies this
      ensures Snapshot() == PreviousBlockStep(old(Snapshot()))
    {
      var h := ToNumber(currentBlockHeight);
      if h.Some? && h.value > 1 {
        Record(OpenPage("block", Some(h.value - 1)));
      }
    }
  }
}
