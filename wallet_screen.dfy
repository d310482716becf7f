/**
 * The wallet screen: the shortened address shown in the header, the
 * block-explorer link, and the state kept while the wallet data is loaded on
 * focus and refreshed on demand. Storage reads and balance lookups are inputs;
 * the USD figure is taken as it comes (its floating-point computation is not
 * modelled).
 */
module WalletScreen {
  import opened Wrappers
  import opened JsString

  /**
   * `truncateAddress`: "" for an empty address; otherwise the first six
   * characters, "..." and the last four, each clamped to the address.
   */
  function TruncateAddress(address: string): (r: string)
    ensures r == [] <==> address == []
    ensures address != [] ==> |r| == Min(6, |address|) + 3 + Min(4, |address|)
  {
    if address == [] then []
    else Substring(address, 0, 6) + "..." + SubstringFrom(address, |address| - 4)
  }

  /** Any non-empty address shows its clamped head, "..." and its clamped tail. */
  lemma TruncateShape(s: string)
    requires s != []
    ensures TruncateAddress(s) == s[..Min(6, |s|)] + "..." + s[Max(0, |s| - 4)..]
  {
  }

  /**
   * From ten characters on the head and the tail do not overlap: the result
   * is 13 characters, the first six and the last four around "...".
   */
  lemma TruncateLong(s: string)
    requires |s| >= 10
    ensures |TruncateAddress(s)| == 13
    ensures TruncateAddress(s)[..6] == s[..6]
    ensures TruncateAddress(s)[6..9] == "..."
    ensures TruncateAddress(s)[9..] == s[|s| - 4..]
  {
    TruncateShape(s);
  }

  /** A 42-character "0x" address shows as "0x", four hex digits, "..." and four more. */
  lemma TruncateHexAddress(s: string)
    requires |s| == 42 && s[..2] == "0x"
    ensures |TruncateAddress(s)| == 13 && TruncateAddress(s)[..2] == "0x"
  {
    TruncateLong(s);
    assert TruncateAddress(s)[..2] == TruncateAddress(s)[..6][..2];
  }

  /** Truncating what is already shown changes nothing. */
  lemma TruncateIdempotent(s: string)
    requires |s| >= 10
    ensures TruncateAddress(TruncateAddress(s)) == TruncateAddress(s)
  {
    var t := TruncateAddress(s);
    TruncateLong(s);
    TruncateLong(t);
    assert t == t[..6] + t[6..9] + t[9..];
    var u := TruncateAddress(t);
    assert u == u[..6] + u[6..9] + u[9..];
  }

  const EXPLORER_ADDRESS_URL: string := "https://sepolia.etherscan.io/address/"

  /** The Sepolia Etherscan page of an address: the address page prefix, then the address as it is. */
  function ExplorerUrl(address: string): (r: string)
    ensures |r| == |EXPLORER_ADDRESS_URL| + |address|
    ensures r[..|EXPLORER_ADDRESS_URL|] == EXPLORER_ADDRESS_URL
    ensures r[|EXPLORER_ADDRESS_URL|..] == address
  {
    EXPLORER_ADDRESS_URL + address
  }

  /** What the screen shows: the address and the balances as display strings. */
  datatype WalletData = WalletData(address: string, tokenBalance: string, usdBalance: string)

  /** A balance lookup's result: the token balance and its USD value. */
  datatype Balances = Balances(tokenBalance: string, usdBalance: string)

  /**
   * The address `loadWalletData` uses: the route's when it is non-empty,
   * otherwise the stored one when that is non-empty, otherwise none.
   */
  function ResolveAddress(routeAddress: Option<string>, storedAddress: Option<string>): (r: Option<string>)
    ensures r.Some? ==> r.value != []
    ensures routeAddress.Some? && routeAddress.value != [] ==> r == routeAddress
    ensures (routeAddress.None? || routeAddress.value == []) ==>
      r == if storedAddress.Some? && storedAddress.value != [] then storedAddress else None
  {
    if routeAddress.Some? && routeAddress.value != [] then routeAddress
    else if storedAddress.Some? && storedAddress.value != [] then storedAddress
    else None
  }

  /** An address is found exactly when the route or storage has a non-empty one. */
  lemma ResolveAddressFound(routeAddress: Option<string>, storedAddress: Option<string>)
    ensures ResolveAddress(routeAddress, storedAddress).Some? <==>
      (routeAddress.Some? && routeAddress.value != []) || (storedAddress.Some? && storedAddress.value != [])
  {
  }

  /** JavaScript's `a || b` on strings: `a` unless it is empty. */
  function OrElse(a: string, b: string): string
  {
    if a != [] then a else b
  }

  /**
   * The first update of `loadWalletData`: the new address, with the previous
   * balances kept when non-empty and "0" / "0.00" otherwise.
   */
  function MergeOnLoad(prev: Option<WalletData>, address: string): (r: WalletData)
    ensures r.address == address
    ensures r.tokenBalance != [] && r.usdBalance != []
    ensures prev.Some? && prev.value.tokenBalance != [] ==> r.tokenBalance == prev.value.tokenBalance
    ensures prev.Some? && prev.value.usdBalance != [] ==> r.usdBalance == prev.value.usdBalance
    ensures (prev.None? || prev.value.tokenBalance == []) ==> r.tokenBalance == "0"
    ensures (prev.None? || prev.value.usdBalance == []) ==> r.usdBalance == "0.00"
  {
    match prev
    case None => WalletData(address, "0", "0.00")
    case Some(p) => WalletData(address, OrElse(p.tokenBalance, "0"), OrElse(p.usdBalance, "0.00"))
  }

  /** Loading twice with the same address gives what loading once gave. */
  lemma MergeOnLoadIdempotent(prev: Option<WalletData>, address: string)
    ensures MergeOnLoad(Some(MergeOnLoad(prev, address)), address) == MergeOnLoad(prev, address)
  {
  }

  /** The update `onRefresh` applies: new balances on the same address; no data stays no data. */
  function ApplyRefresh(prev: Option<WalletData>, b: Balances): (r: Option<WalletData>)
    ensures r.Some? <==> prev.Some?
    ensures r.Some? ==> r.value == WalletData(prev.value.address, b.tokenBalance, b.usdBalance)
  {
    match prev
    case None => None
    case Some(p) => Some(p.(tokenBalance := b.tokenBalance, usdBalance := b.usdBalance))
  }

  /** The screen's state: the wallet data and the three loading flags. */
  class Wallet {
    var walletData: Option<WalletData>
    var isLoading: bool
    var refreshing: bool
    var isBalanceLoading: bool

    /** Wallet data is only ever set with a non-empty address. */
    ghost predicate Valid()
      reads this
    {
      walletData.Some? ==> walletData.value.address != []
    }

    /** The refresh button is disabled while a refresh or a balance load is under way. */
    predicate RefreshDisabled()
      reads this
    {
      refreshing || isBalanceLoading
    }

    constructor ()
      ensures Valid() && walletData.None? && isLoading && !refreshing && !isBalanceLoading
    {
      walletData := None;
      isLoading := true;
      refreshing := false;
      isBalanceLoading := false;
    }

    /**
     * `loadWalletData`. Without an address nothing but `isLoading` changes.
     * With one, the address is set at once; when the balance lookup
     * succeeds its balances replace the old ones and the balance spinner
     * stops, and when it throws the spinner is left running. Either way
     * `isLoading` ends false. Whether the route asked for a balance refresh
     * does not matter: both branches do the same.
     */
    method LoadWalletData(routeAddress: Option<string>, storedAddress: Option<string>, fetched: Result<Balances>)
      requires Valid()
      modifies this
      ensures Valid() && !isLoading && refreshing == old(refreshing)
      ensures var address := ResolveAddress(routeAddress, storedAddress);
        match address
        case None =>
          walletData == old(walletData) && isBalanceLoading == old(isBalanceLoading)
        case Some(a) =>
          match fetched
          case Ok(b) =>
            walletData == Some(WalletData(a, b.tokenBalance, b.usdBalance)) && !isBalanceLoading
          case Err(_) =>
            walletData == Some(MergeOnLoad(old(walletData), a)) && isBalanceLoading
    {
      isLoading := true;
      var address := ResolveAddress(routeAddress, storedAddress);
      if address.Some? {
        var a := address.value;
        walletData := Some(MergeOnLoad(walletData, a));
        isBalanceLoading := true;
        if fetched.Ok? {
          walletData := Some(WalletData(a, fetched.value.tokenBalance, fetched.value.usdBalance));
          isBalanceLoading := false;
        }
      }
      isLoading := false;
    }

    /**
     * The start of `onRefresh`: nothing happens without an address;
     * otherwise `refreshing` is set and the lookup begins.
     */
    method BeginRefresh() returns (started: bool)
      requires Valid()
      modifies this
      ensures Valid()
      ensures started <==> old(walletData).Some?
      ensures refreshing == (old(refreshing) || started)
      ensures walletData == old(walletData) && isLoading == old(isLoading)
      ensures isBalanceLoading == old(isBalanceLoading)
    {
      started := walletData.Some? && walletData.value.address != [];
      if started {
        refreshing := true;
      }
    }

    /**
     * The end of `onRefresh`: `refreshing` is cleared whether the lookup
     * succeeded or threw; on success the balances are replaced on whatever
     * data is there by then, and on failure the data is left alone.
     */
    method FinishRefresh(fetched: Result<Balances>)
      requires Valid()
      modifies this
      ensures Valid() && !refreshing
      ensures walletData == if fetched.Ok? then ApplyRefresh(old(walletData), fetched.value) else old(walletData)
      ensures isLoading == old(isLoading) && isBalanceLoading == old(isBalanceLoading)
    {
      if fetched.Ok? {
        walletData := ApplyRefresh(walletData, fetched.value);
      }
      refreshing := false;
    }

    /** A press on the refresh button: ignored while it is disabled, otherwise `onRefresh` starts. */
    method PressRefresh() returns (started: bool)
      requires Valid()
      modifies this
      ensures Valid()
      ensures started <==> !old(RefreshDisabled()) && old(walletData).Some?
      ensures started ==> RefreshDisabled()
      ensures refreshing == (old(refreshing) || started)
      ensures walletData == old(walletData) && isLoading == old(isLoading)
      ensures isBalanceLoading == old(isBalanceLoading)
    {
      if RefreshDisabled() {
        started := false;
      } else {
        started := BeginRefresh();
      }
    }

    /** `handleViewOnEtherscan`: the page to open, or none while there is no address. */
    function EtherscanLink(): (url: Option<string>)
      reads this
      requires Valid()
      ensures url.Some? <==> walletData.Some?
      ensures url.Some? ==> url.value == ExplorerUrl(walletData.value.address)
    {
      if walletData.Some? && walletData.value.address != [] then Some(ExplorerUrl(walletData.value.address)) else None
    }
  }
}
