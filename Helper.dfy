/** The validators, arithmetic and small list rules of the explorer's helper
    class (src/helper.js). */
module Helper {
  import opened Common

  // ---------------------------------------------------------------------
  // Regular-expression character classes
  // ---------------------------------------------------------------------

  /** One range `lo-hi` of a character class such as `[0-9a-fA-F]`. */
  datatype CharRange = CharRange(lo: char, hi: char)

  /** `c` matches the class made of the ranges `cls`. */
  predicate InClass(c: char, cls: seq<CharRange>) {
    if cls == [] then false else (cls[0].lo <= c <= cls[0].hi) || InClass(c, cls[1..])
  }

  /** `^[cls]+$`: one character of the class, then the rest of the string
      matched the same way. */
  predicate MatchesPlus(s: string, cls: seq<CharRange>) {
    |s| >= 1 && InClass(s[0], cls) && (|s| == 1 || MatchesPlus(s[1..], cls))
  }

  lemma {:induction false} MatchesPlusEveryChar(s: string, cls: seq<CharRange>)
    ensures MatchesPlus(s, cls) <==> |s| >= 1 && forall i :: 0 <= i < |s| ==> InClass(s[i], cls)
  {
    if |s| > 1 {
      MatchesPlusEveryChar(s[1..], cls);
      if forall i :: 0 <= i < |s| ==> InClass(s[i], cls) {
        assert forall i :: 0 <= i < |s| - 1 ==> InClass(s[1..][i], cls) by {
          forall i | 0 <= i < |s| - 1 ensures InClass(s[1..][i], cls) {
            assert s[1..][i] == s[i + 1];
          }
        }
      }
      if MatchesPlus(s, cls) {
        forall i | 0 <= i < |s| ensures InClass(s[i], cls) {
          if i > 0 { assert s[i] == s[1..][i - 1]; }
        }
      }
    }
  }

  const HexClass: seq<CharRange> := [CharRange('0', '9'), CharRange('a', 'f'), CharRange('A', 'F')]
  const AlnumClass: seq<CharRange> := [CharRange('a', 'z'), CharRange('A', 'Z'), CharRange('0', '9')]
  const DigitClass: seq<CharRange> := [CharRange('0', '9')]
  /** The class `[A-z0-9]` of the public-key check: the range `A-z` runs from
      'A' (65) to 'z' (122), across the six punctuation characters 91..96. */
  const PublicKeyClass: seq<CharRange> := [CharRange('A', 'z'), CharRange('0', '9')]

  predicate IsHexDigit(c: char) { '0' <= c <= '9' || 'a' <= c <= 'f' || 'A' <= c <= 'F' }
  predicate IsAlnum(c: char) { 'a' <= c <= 'z' || 'A' <= c <= 'Z' || '0' <= c <= '9' }

  lemma HexClassIsHexDigit(c: char)
    ensures InClass(c, HexClass) <==> IsHexDigit(c)
  {
    var r1, r2 := [CharRange('a', 'f'), CharRange('A', 'F')], [CharRange('A', 'F')];
    assert HexClass[1..] == r1 && r1[1..] == r2 && r2[1..] == [];
    assert InClass(c, r2) <==> 'A' <= c <= 'F';
    assert InClass(c, r1) <==> 'a' <= c <= 'f' || 'A' <= c <= 'F';
  }

  lemma AlnumClassIsAlnum(c: char)
    ensures InClass(c, AlnumClass) <==> IsAlnum(c)
  {
    var r1, r2 := [CharRange('A', 'Z'), CharRange('0', '9')], [CharRange('0', '9')];
    assert AlnumClass[1..] == r1 && r1[1..] == r2 && r2[1..] == [];
    assert InClass(c, r2) <==> '0' <= c <= '9';
    assert InClass(c, r1) <==> 'A' <= c <= 'Z' || '0' <= c <= '9';
  }

  lemma DigitClassIsDigit(c: char)
    ensures InClass(c, DigitClass) <==> IsDigit(c)
  {
    assert DigitClass[1..] == [];
  }

  lemma PublicKeyClassRanges(c: char)
    ensures InClass(c, PublicKeyClass) <==> ('A' <= c <= 'z' || '0' <= c <= '9')
  {
    var r1 := [CharRange('0', '9')];
    assert PublicKeyClass[1..] == r1 && r1[1..] == [];
    assert InClass(c, r1) <==> '0' <= c <= '9';
  }

  // ---------------------------------------------------------------------
  // Validators
  // ---------------------------------------------------------------------

  /** `isMosaicOrNamespaceId`: length 16 and `/^[0-9a-fA-F]+$/`. */
  predicate IsMosaicOrNamespaceId(str: string) {
    |str| == 16 && MatchesPlus(str, HexClass)
  }

  /** A mosaic or namespace id is exactly sixteen hexadecimal digits. */
  lemma IsMosaicOrNamespaceIdIffHex(str: string)
    ensures IsMosaicOrNamespaceId(str) <==> |str| == 16 && forall i :: 0 <= i < |str| ==> IsHexDigit(str[i])
  {
    MatchesPlusEveryChar(str, HexClass);
    forall i | 0 <= i < |str| { HexClassIsHexDigit(str[i]); }
  }

  /** `isAccountPublicKey`, as written: length 64 and `^[A-z0-9]+$`. */
  predicate IsAccountPublicKey(str: string) {
    |str| == 64 && MatchesPlus(str, PublicKeyClass)
  }

  lemma IsAccountPublicKeyIffRanges(str: string)
    ensures IsAccountPublicKey(str) <==>
      |str| == 64 && forall i :: 0 <= i < |str| ==> ('A' <= str[i] <= 'z' || '0' <= str[i] <= '9')
  {
    MatchesPlusEveryChar(str, PublicKeyClass);
    forall i | 0 <= i < |str| { PublicKeyClassRanges(str[i]); }
  }

  /** The range `A-z` lets punctuation through: sixty-four underscores pass
      the public-key check. */
  lemma PublicKeyAcceptsUnderscores()
    ensures IsAccountPublicKey(seq(64, _ => '_'))
  {
    var s := seq(64, _ => '_');
    IsAccountPublicKeyIffRanges(s);
  }

  /** The public-key check with the class the authors evidently meant,
      `[A-Za-z0-9]`. */
  predicate IsAccountPublicKeyAlnum(str: string) {
    |str| == 64 && MatchesPlus(str, AlnumClass)
  }

  lemma IsAccountPublicKeyAlnumIffAlnum(str: string)
    ensures IsAccountPublicKeyAlnum(str) <==> |str| == 64 && forall i :: 0 <= i < |str| ==> IsAlnum(str[i])
    ensures !IsAccountPublicKeyAlnum(seq(64, _ => '_'))
  {
    MatchesPlusEveryChar(str, AlnumClass);
    forall i | 0 <= i < |str| { AlnumClassIsAlnum(str[i]); }
    var u := seq(64, _ => '_');
    MatchesPlusEveryChar(u, AlnumClass);
    AlnumClassIsAlnum(u[0]);
  }

  /** The network types whose address prefixes the explorer knows. */
  datatype NetworkType = MainNet | Mijin | MijinTest | TestNet | OtherNetwork

  /** The characters allowed in the first position of an address. For a
      network missing from the table the lookup is `undefined`, which the
      template literal turns into the class `[undefined]`. */
  function AddressPrefixChars(network: NetworkType): string {
    match network
    case MainNet => "nN"
    case Mijin => "mM"
    case MijinTest => "sS"
    case TestNet => "tT"
    case OtherNetwork => "undefined"
  }

  /** The address pattern (one prefix character, then 5 + 6*5 + 3 = 38
      alphanumerics) matches the 39 characters of `s` from `start`. */
  predicate AddressMatchesAt(s: string, start: nat, network: NetworkType)
    requires start + 39 <= |s|
  {
    s[start] in AddressPrefixChars(network) &&
    forall j :: start + 1 <= j < start + 39 ==> IsAlnum(s[j])
  }

  /** `isAccountAddress`: length 39 and the unanchored address pattern found
      somewhere in the string. */
  predicate IsAccountAddress(str: string, network: NetworkType) {
    |str| == 39 && exists start: nat :: start + 39 <= |str| && AddressMatchesAt(str, start, network)
  }

  /** Because the pattern is exactly 39 characters long, the unanchored search
      of a 39-character string can only match the whole string. */
  lemma IsAccountAddressIffWhole(str: string, network: NetworkType)
    ensures IsAccountAddress(str, network) <==>
      |str| == 39 && str[0] in AddressPrefixChars(network) &&
      forall j :: 1 <= j < 39 ==> IsAlnum(str[j])
  {
    if |str| == 39 && str[0] in AddressPrefixChars(network) && forall j :: 1 <= j < 39 ==> IsAlnum(str[j]) {
      assert AddressMatchesAt(str, 0, network);
    }
  }

  /** `isBlockHeight`: `/^-{0,1}\d+$/`. */
  predicate IsBlockHeight(str: string) {
    MatchesPlus(str, DigitClass) || (|str| >= 1 && str[0] == '-' && MatchesPlus(str[1..], DigitClass))
  }

  lemma AllDigitsMatch(s: string)
    requires |s| >= 1 && forall i :: 0 <= i < |s| ==> IsDigit(s[i])
    ensures MatchesPlus(s, DigitClass)
  {
    MatchesPlusEveryChar(s, DigitClass);
    forall i | 0 <= i < |s| { DigitClassIsDigit(s[i]); }
  }

  /** Every integer the explorer renders is accepted as a block height. */
  lemma IsBlockHeightOfIntToString(i: int)
    ensures IsBlockHeight(IntToString(i))
  {
    if i < 0 {
      var s := IntToString(i);
      assert s[1..] == NatToString(-i);
      AllDigitsMatch(NatToString(-i));
    } else {
      AllDigitsMatch(NatToString(i));
    }
  }

  // ---------------------------------------------------------------------
  // Time spans
  // ---------------------------------------------------------------------

  /** The components of a duration (a moment duration in the source). */
  datatype Interval = Interval(years: int, days: int, hours: int, minutes: int, seconds: int)

  /** `timeSince`: the largest component that is at least one, with its unit. */
  function TimeSince(interval: Interval): (r: string)
    ensures interval.years >= 1 ==>
      r == IntToString(interval.years) + (if interval.years == 1 then " year" else " years")
    ensures interval.years < 1 && interval.days >= 1 ==>
      r == IntToString(interval.days) + (if interval.days == 1 then " day" else " days")
    ensures interval.years < 1 && interval.days < 1 && interval.hours >= 1 ==>
      r == IntToString(interval.hours) + (if interval.hours == 1 then " hour" else " hours")
    ensures interval.years < 1 && interval.days < 1 && interval.hours < 1 && interval.minutes >= 1 ==>
      r == IntToString(interval.minutes) + " min"
    ensures interval.years < 1 && interval.days < 1 && interval.hours < 1 && interval.minutes < 1 ==>
      r == IntToString(interval.seconds) + " sec"
  {
    if interval.years > 1 then IntToString(interval.years) + " years"
    else if interval.years == 1 then IntToString(interval.years) + " year"
    else if interval.days > 1 then IntToString(interval.days) + " days"
    else if interval.days == 1 then IntToString(interval.days) + " day"
    else if interval.hours > 1 then IntToString(interval.hours) + " hours"
    else if interval.hours == 1 then IntToString(interval.hours) + " hour"
    else if interval.minutes > 1 then IntToString(interval.minutes) + " min"
    else if interval.minutes == 1 then IntToString(interval.minutes) + " min"
    else if interval.seconds != 1 then IntToString(interval.seconds) + " sec"
    else IntToString(interval.seconds) + " sec"
  }

  /** Days, hours and minutes of a number of seconds; `rest` is what is left
      and never shown. */
  datatype SecondsParts = SecondsParts(d: int, h: int, m: int, rest: int)

  /** The decomposition `formatSeconds` computes: each unit is taken only when
      the remaining seconds are strictly greater than one such unit. */
  function SplitSeconds(second: int): SecondsParts {
    var d := if second > 86400 then second / 86400 else 0;
    var s1 := if second > 86400 then second % 86400 else second;
    var h := if s1 > 3600 then s1 / 3600 else 0;
    var s2 := if s1 > 3600 then s1 % 3600 else s1;
    var m := if s2 > 60 then s2 / 60 else 0;
    var s3 := if s2 > 60 then s2 % 60 else s2;
    SecondsParts(d, h, m, s3)
  }

  /** The text for a decomposition: "D d H h M m ", dropping leading units
      that are zero. */
  function RenderParts(p: SecondsParts): string {
    var withM := if p.m > 0 || p.h > 0 || p.d > 0 then IntToString(p.m) + " m " else "";
    var withH := if p.h > 0 || p.d > 0 then IntToString(p.h) + " h " + withM else withM;
    if p.d > 0 then IntToString(p.d) + " d " + withH else withH
  }

  /** The value `formatSeconds` returns; `None` stands for null or undefined. */
  function FormatSecondsOf(second: Option<int>): string {
    match second
    case None => ""
    case Some(s) => RenderParts(SplitSeconds(s))
  }

  /** `formatSeconds`, step by step as the source reassigns its variables. */
  method FormatSeconds(second: Option<int>) returns (result: string)
    ensures result == FormatSecondsOf(second)
  {
    if second.None? {
      return "";
    }
    var s := second.value;
    var d, h, m := 0, 0, 0;
    if s > 86400 {
      d := s / 86400;
      s := s % 86400;
    }
    if s > 3600 {
      h := s / 3600;
      s := s % 3600;
    }
    if s > 60 {
      m := s / 60;
      s := s % 60;
    }
    ghost var p := SplitSeconds(second.value);
    assert d == p.d && h == p.h && m == p.m;
    result := "";
    if m > 0 || h > 0 || d > 0 {
      result := IntToString(m) + " m " + result;
    }
    if h > 0 || d > 0 {
      result := IntToString(h) + " h " + result;
    }
    if d > 0 {
      result := IntToString(d) + " d " + result;
    }
  }

  /** The decomposition accounts for every second; because the tests are
      strict, an hour part can reach 24, a minute part 60, and up to 60
      seconds are left over. */
  lemma SplitSecondsSum(second: int)
    requires second >= 0
    ensures var p := SplitSeconds(second);
      p.d * 86400 + p.h * 3600 + p.m * 60 + p.rest == second &&
      0 <= p.h <= 24 && 0 <= p.m <= 60 && 0 <= p.rest <= 60
  {
    var s1 := if second > 86400 then second % 86400 else second;
    var s2 := if s1 > 3600 then s1 % 3600 else s1;
    assert s1 <= 86400;
    assert s2 <= 3600;
    if second > 86400 {
      assert (second / 86400) * 86400 + second % 86400 == second;
    }
    if s1 > 3600 {
      assert (s1 / 3600) * 3600 + s1 % 3600 == s1;
      assert s1 / 3600 <= 24;
    }
    if s2 > 60 {
      assert (s2 / 60) * 60 + s2 % 60 == s2;
      assert s2 / 60 <= 60;
    }
  }

  /** `formatSeconds` answers "" exactly when at most a minute is given. */
  lemma FormatSecondsEmptyIff(second: int)
    ensures FormatSecondsOf(Some(second)) == "" <==> second <= 60
  {
    var p := SplitSeconds(second);
    if second > 86400 {
      assert p.d >= 1;
    } else if second > 3600 {
      assert p.h >= 1;
    } else if second > 60 {
      assert p.m >= 1;
    }
    if p.m > 0 || p.h > 0 || p.d > 0 {
      assert |RenderParts(p)| > 0;
    }
  }

  /** A day part is printed exactly when more than one day is given. */
  lemma FormatSecondsDayPart(second: int)
    ensures SplitSeconds(second).d > 0 <==> second > 86400
    ensures second > 86400 ==>
      var p := SplitSeconds(second);
      FormatSecondsOf(Some(second)) ==
        IntToString(second / 86400) + " d " + IntToString(p.h) + " h " + IntToString(p.m) + " m "
  {
  }

  /** The strict tests make exactly one hour read "60 m " and exactly one day
      read "24 h 0 m ". */
  lemma FormatSecondsBoundaryAsWritten()
    ensures FormatSecondsOf(Some(3600)) == "60 m "
    ensures FormatSecondsOf(Some(86400)) == "24 h 0 m "
  {
    assert SplitSeconds(3600) == SecondsParts(0, 0, 60, 0);
    assert NatToString(60) == NatToString(6) + [DigitChar(0)];
    assert IntToString(60) == "60";
    assert SplitSeconds(86400) == SecondsParts(0, 24, 0, 0);
    assert NatToString(24) == NatToString(2) + [DigitChar(4)];
    assert IntToString(24) == "24";
    assert IntToString(0) == "0";
  }

  /** The decomposition with `>=`, which carries a full unit over. */
  function SplitSecondsCarrying(second: int): SecondsParts {
    var d := if second >= 86400 then second / 86400 else 0;
    var s1 := if second >= 86400 then second % 86400 else second;
    var h := if s1 >= 3600 then s1 / 3600 else 0;
    var s2 := if s1 >= 3600 then s1 % 3600 else s1;
    var m := if s2 >= 60 then s2 / 60 else 0;
    var s3 := if s2 >= 60 then s2 % 60 else s2;
    SecondsParts(d, h, m, s3)
  }

  function FormatSecondsCarrying(second: Option<int>): string {
    match second
    case None => ""
    case Some(s) => RenderParts(SplitSecondsCarrying(s))
  }

  /** With `>=` every part stays below its unit, and one hour reads "1 h 0 m ". */
  lemma SplitSecondsCarryingBounds(second: int)
    requires second >= 0
    ensures var p := SplitSecondsCarrying(second);
      p.d * 86400 + p.h * 3600 + p.m * 60 + p.rest == second &&
      0 <= p.h < 24 && 0 <= p.m < 60 && 0 <= p.rest < 60
    ensures FormatSecondsCarrying(Some(3600)) == "1 h 0 m "
  {
    var s1 := if second >= 86400 then second % 86400 else second;
    var s2 := if s1 >= 3600 then s1 % 3600 else s1;
    assert s1 < 86400;
    assert s2 < 3600;
    if second >= 86400 {
      assert (second / 86400) * 86400 + second % 86400 == second;
    }
    if s1 >= 3600 {
      assert (s1 / 3600) * 3600 + s1 % 3600 == s1;
      assert s1 / 3600 < 24;
    }
    if s2 >= 60 {
      assert (s2 / 60) * 60 + s2 % 60 == s2;
      assert s2 / 60 < 60;
    }
    assert SplitSecondsCarrying(3600) == SecondsParts(0, 1, 0, 0);
    assert IntToString(1) == "1";
    assert IntToString(0) == "0";
  }

  // ---------------------------------------------------------------------
  // Namespace expiration
  // ---------------------------------------------------------------------

  /** The network parameters the helper reads from the node's configuration. */
  datatype NetworkConfig = NetworkConfig(namespaceGraceDuration: int, targetBlockTime: int)

  /** `convertToSecond`: a number of blocks times the target block time. */
  function ConvertToSecond(durationInBlocks: int, config: NetworkConfig): (s: int)
    ensures durationInBlocks >= 0 && config.targetBlockTime >= 0 ==> s >= 0
    ensures durationInBlocks < 0 && config.targetBlockTime > 0 ==> s < 0
  {
    durationInBlocks * config.targetBlockTime
  }

  datatype Expiration = Expiration(isExpired: bool, expiredInBlock: int, expiredInSecond: int)

  /** `calculateNamespaceExpiration`. */
  function CalculateNamespaceExpiration(currentHeight: int, endHeight: int, config: NetworkConfig): (e: Expiration)
    ensures e.isExpired <==> e.expiredInBlock < 0
    ensures currentHeight + e.expiredInBlock + config.namespaceGraceDuration == endHeight
    ensures e.expiredInSecond == ConvertToSecond(e.expiredInBlock, config)
  {
    var expired := currentHeight > endHeight - config.namespaceGraceDuration;
    var expiredInBlock := endHeight - config.namespaceGraceDuration - currentHeight;
    Expiration(expired, expiredInBlock, ConvertToSecond(expiredInBlock, config))
  }

  // ---------------------------------------------------------------------
  // fetchData: the loading / error flag protocol
  // ---------------------------------------------------------------------

  /** What `fetchData` does, in order: a commit to the store, a call, or the
      `console.error` log. */
  datatype Effect =
    | SetLoading(loading: bool)
    | SetError(error: bool)
    | CallBefore
    | CallFetch
    | CallErrorHook
    | LogError
    | CallSuccessHook

  /** Which optional hooks were passed as functions. */
  datatype Hooks = Hooks(hasBefore: bool, hasError: bool, hasSuccess: bool)

  /** Which of the awaited calls throw when they run: the fetch function and
      each hook (a flag for a hook that was not passed has no effect). */
  datatype Throws = Throws(before: bool, fetch: bool, error: bool, success: bool)

  /** The effects of one `fetchData` call, and whether the promise it returns
      rejects: an exception of a hook escapes and cuts the sequence off at
      that hook, an exception of the fetch function is caught. */
  datatype FetchRun = FetchRun(effects: seq<Effect>, rejected: bool)

  /** The before hook throws, so nothing after it runs. */
  predicate BeforeThrows(hooks: Hooks, throws: Throws) {
    hooks.hasBefore && throws.before
  }

  /** The error hook runs and throws. */
  predicate ErrorHookThrows(hooks: Hooks, throws: Throws) {
    !BeforeThrows(hooks, throws) && throws.fetch && hooks.hasError && throws.error
  }

  function FetchDataRun(hooks: Hooks, throws: Throws): FetchRun {
    var start := if hooks.hasBefore then [CallBefore] else [SetLoading(true), SetError(false)];
    if BeforeThrows(hooks, throws) then FetchRun(start, true)
    else
      var caught := if !throws.fetch then [] else if hooks.hasError then [CallErrorHook] else [LogError, SetError(true)];
      if ErrorHookThrows(hooks, throws) then FetchRun(start + [CallFetch] + caught, true)
      else
        var finish := if hooks.hasSuccess then [CallSuccessHook] else [SetLoading(false)];
        FetchRun(start + [CallFetch] + caught + finish, hooks.hasSuccess && throws.success)
  }

  /** `fetchData`, step by step as the source awaits its calls; a hook that
      throws ends the run with a rejection. */
  method FetchData(hooks: Hooks, throws: Throws) returns (run: FetchRun)
    ensures run == FetchDataRun(hooks, throws)
  {
    var effects := [];
    if hooks.hasBefore {
      effects := effects + [CallBefore];
      if throws.before {
        return FetchRun(effects, true);
      }
    } else {
      effects := effects + [SetLoading(true)];
      effects := effects + [SetError(false)];
    }
    ghost var start := effects;
    assert start == if hooks.hasBefore then [CallBefore] else [SetLoading(true), SetError(false)];
    effects := effects + [CallFetch];
    if throws.fetch {
      if hooks.hasError {
        effects := effects + [CallErrorHook];
        if throws.error {
          return FetchRun(effects, true);
        }
      } else {
        effects := effects + [LogError];
        effects := effects + [SetError(true)];
      }
    }
    ghost var caught := if !throws.fetch then [] else if hooks.hasError then [CallErrorHook] else [LogError, SetError(true)];
    assert effects == start + [CallFetch] + caught;
    if hooks.hasSuccess {
      effects := effects + [CallSuccessHook];
      run := FetchRun(effects, throws.success);
    } else {
      effects := effects + [SetLoading(false)];
      run := FetchRun(effects, false);
    }
  }

  /** The promise rejects exactly when a hook that is reached throws; an
      exception of the fetch function itself never escapes. */
  lemma FetchDataRejectsIffHookThrows(hooks: Hooks, throws: Throws)
    ensures FetchDataRun(hooks, throws).rejected <==>
      BeforeThrows(hooks, throws) || ErrorHookThrows(hooks, throws) || (hooks.hasSuccess && throws.success)
    ensures var plain := Hooks(false, false, false);
      !FetchDataRun(plain, throws).rejected
  {
  }

  /** A before hook that throws stops the call before the fetch runs. */
  lemma ThrowingBeforeSkipsFetch(hooks: Hooks, throws: Throws)
    requires BeforeThrows(hooks, throws)
    ensures FetchDataRun(hooks, throws) == FetchRun([CallBefore], true)
    ensures CallFetch !in FetchDataRun(hooks, throws).effects
  {
  }

  /** The store's two flags. */
  datatype Flags = Flags(loading: bool, error: bool)

  /** The flags after the commits among `effects`, in order. */
  function ApplyEffects(flags: Flags, effects: seq<Effect>): Flags
    decreases |effects|
  {
    if effects == [] then flags
    else
      var f := match effects[0]
        case SetLoading(b) => flags.(loading := b)
        case SetError(b) => flags.(error := b)
        case _ => flags;
      ApplyEffects(f, effects[1..])
  }

  lemma {:induction false} ApplyEffectsAppend(flags: Flags, a: seq<Effect>, b: seq<Effect>)
    ensures ApplyEffects(flags, a + b) == ApplyEffects(ApplyEffects(flags, a), b)
    decreases |a|
  {
    if a == [] {
      assert a + b == b;
    } else {
      assert (a + b)[1..] == a[1..] + b;
      var f := match a[0]
        case SetLoading(x) => flags.(loading := x)
        case SetError(x) => flags.(error := x)
        case _ => flags;
      ApplyEffectsAppend(f, a[1..], b);
    }
  }

  /** Without hooks the flags are raised and cleared before the fetch runs,
      and once it settles loading is off and error says whether it threw,
      whatever the store held before; a throwing fetch is also logged. */
  lemma FetchDataSettles(flags: Flags, throws: Throws)
    ensures var run := FetchDataRun(Hooks(false, false, false), throws);
      var e := run.effects;
      !run.rejected &&
      e[..3] == [SetLoading(true), SetError(false), CallFetch] &&
      e[|e| - 1] == SetLoading(false) &&
      (LogError in e <==> throws.fetch) &&
      ApplyEffects(flags, e) == Flags(false, throws.fetch)
  {
    var e := FetchDataRun(Hooks(false, false, false), throws).effects;
    var tail := if throws.fetch then [LogError, SetError(true), SetLoading(false)] else [SetLoading(false)];
    var start := [SetLoading(true), SetError(false), CallFetch];
    assert e == start + tail;
    ApplyEffectsAppend(flags, start, tail);
    var f1 := flags.(loading := true);
    var f2 := f1.(error := false);
    assert ApplyEffects(f2, [CallFetch]) == f2;
    assert ApplyEffects(f1, start[1..]) == f2;
    assert ApplyEffects(flags, start) == f2;
    if throws.fetch {
      assert tail[1..] == [SetError(true), SetLoading(false)];
      assert ApplyEffects(f2.(error := true), [SetLoading(false)]) == Flags(false, true);
      assert LogError in e by {
        assert e[3] == LogError;
      }
    } else {
      assert ApplyEffects(f2, tail) == Flags(false, false);
      assert LogError !in e by {
        forall i | 0 <= i < |e| ensures e[i] != LogError {
          assert i < 3 ==> e[i] == start[i];
        }
      }
    }
  }

  /** With no before hook, an error hook that throws leaves the store
      loading: the final `setLoading(false)` is never committed. */
  lemma ThrowingErrorHookLeavesLoading(flags: Flags, hasSuccess: bool, throws: Throws)
    requires throws.fetch && throws.error
    ensures var run := FetchDataRun(Hooks(false, true, hasSuccess), throws);
      run.rejected && CallSuccessHook !in run.effects && ApplyEffects(flags, run.effects) == Flags(true, false)
  {
    var e := FetchDataRun(Hooks(false, true, hasSuccess), throws).effects;
    assert e == [SetLoading(true), SetError(false), CallFetch, CallErrorHook];
    assert e[1..] == [SetError(false), CallFetch, CallErrorHook];
    assert e[1..][1..] == [CallFetch, CallErrorHook];
    assert e[1..][1..][1..] == [CallErrorHook];
    assert e[1..][1..][1..][1..] == [];
    var f1 := flags.(loading := true);
    var f2 := f1.(error := false);
    assert ApplyEffects(f2, e[1..][1..][1..]) == f2;
    assert ApplyEffects(f2, e[1..][1..]) == f2;
    assert ApplyEffects(f1, e[1..]) == f2;
  }

  /** The error flag is raised only when the fetch runs and throws and no
      error hook takes over. */
  lemma FetchDataErrorOnlyOnThrow(hooks: Hooks, throws: Throws)
    ensures SetError(true) in FetchDataRun(hooks, throws).effects <==>
      !BeforeThrows(hooks, throws) && throws.fetch && !hooks.hasError
  {
    var e := FetchDataRun(hooks, throws).effects;
    if SetError(true) in e {
      var i :| 0 <= i < |e| && e[i] == SetError(true);
    }
    if !BeforeThrows(hooks, throws) && throws.fetch && !hooks.hasError {
      var k := if hooks.hasBefore then 3 else 4;
      assert e[k] == SetError(true);
    }
  }

  // ---------------------------------------------------------------------
  // sortMosaics: the network currency first
  // ---------------------------------------------------------------------

  /** A formatted mosaic entry; only its id decides its place. */
  datatype Mosaic = Mosaic(mosaicId: string, amount: int)

  predicate IsNativeMosaic(m: Mosaic, currencyMosaicId: string) {
    m.mosaicId == currencyMosaicId
  }

  function NativesOf(mosaics: seq<Mosaic>, currencyMosaicId: string): seq<Mosaic> {
    if mosaics == [] then []
    else
      var last := mosaics[|mosaics| - 1];
      NativesOf(mosaics[..|mosaics| - 1], currencyMosaicId)
      + (if IsNativeMosaic(last, currencyMosaicId) then [last] else [])
  }

  function OthersOf(mosaics: seq<Mosaic>, currencyMosaicId: string): seq<Mosaic> {
    if mosaics == [] then []
    else
      var last := mosaics[|mosaics| - 1];
      OthersOf(mosaics[..|mosaics| - 1], currencyMosaicId)
      + (if IsNativeMosaic(last, currencyMosaicId) then [] else [last])
  }

  function Reverse<T>(s: seq<T>): seq<T> {
    if s == [] then [] else [s[|s| - 1]] + Reverse(s[..|s| - 1])
  }

  /** The order `sortMosaics` produces: the currency mosaics in reverse input
      order (each is put in front), then the others in input order. */
  function NativeFirst(mosaics: seq<Mosaic>, currencyMosaicId: string): seq<Mosaic> {
    Reverse(NativesOf(mosaics, currencyMosaicId)) + OthersOf(mosaics, currencyMosaicId)
  }

  lemma NativeFirstSnoc(mosaics: seq<Mosaic>, m: Mosaic, currencyMosaicId: string)
    ensures NativeFirst(mosaics + [m], currencyMosaicId) ==
      if IsNativeMosaic(m, currencyMosaicId) then [m] + NativeFirst(mosaics, currencyMosaicId)
      else NativeFirst(mosaics, currencyMosaicId) + [m]
  {
    var s := mosaics + [m];
    assert s[..|s| - 1] == mosaics;
    var n := NativesOf(mosaics, currencyMosaicId);
    var o := OthersOf(mosaics, currencyMosaicId);
    if IsNativeMosaic(m, currencyMosaicId) {
      assert NativesOf(s, currencyMosaicId) == n + [m];
      assert OthersOf(s, currencyMosaicId) == o;
      assert (n + [m])[..|n + [m]| - 1] == n;
      assert Reverse(n + [m]) == [m] + Reverse(n);
    } else {
      assert NativesOf(s, currencyMosaicId) == n;
      assert OthersOf(s, currencyMosaicId) == o + [m];
    }
  }

  /** `sortMosaics`: walks the list once, putting each currency mosaic at the
      front (`unshift`) and every other mosaic at the back (`push`). */
  method SortMosaics(mosaics: seq<Mosaic>, currencyMosaicId: string) returns (sorted: seq<Mosaic>)
    ensures sorted == NativeFirst(mosaics, currencyMosaicId)
  {
    sorted := [];
    var i := 0;
    while i < |mosaics|
      invariant 0 <= i <= |mosaics|
      invariant sorted == NativeFirst(mosaics[..i], currencyMosaicId)
    {
      var m := mosaics[i];
      ghost var seen := mosaics[..i];
      assert mosaics[..i + 1] == seen + [m];
      NativeFirstSnoc(seen, m, currencyMosaicId);
      if m.mosaicId == currencyMosaicId {
        sorted := [m] + sorted;
        assert sorted == NativeFirst(seen + [m], currencyMosaicId);
      } else {
        sorted := sorted + [m];
        assert sorted == NativeFirst(seen + [m], currencyMosaicId);
      }
      i := i + 1;
    }
    assert mosaics[..i] == mosaics;
  }

  lemma {:induction false} ReverseMultiset<T>(s: seq<T>)
    ensures multiset(Reverse(s)) == multiset(s)
    ensures |Reverse(s)| == |s|
    ensures forall x :: x in Reverse(s) <==> x in s
  {
    if s != [] {
      ReverseMultiset(s[..|s| - 1]);
      assert s == s[..|s| - 1] + [s[|s| - 1]];
    }
  }

  /** Classifying one more mosaic adds it to exactly one of the two parts. */
  lemma SplitByCurrencySnoc(init: seq<Mosaic>, last: Mosaic, currencyMosaicId: string)
    ensures multiset(NativesOf(init + [last], currencyMosaicId)) + multiset(OthersOf(init + [last], currencyMosaicId)) ==
            multiset(NativesOf(init, currencyMosaicId)) + multiset(OthersOf(init, currencyMosaicId)) + multiset{last}
  {
    var s := init + [last];
    assert s[..|s| - 1] == init;
    assert s[|s| - 1] == last;
  }

  lemma {:induction false} SplitByCurrencyMultiset(mosaics: seq<Mosaic>, currencyMosaicId: string)
    ensures multiset(NativesOf(mosaics, currencyMosaicId)) + multiset(OthersOf(mosaics, currencyMosaicId)) == multiset(mosaics)
  {
    if mosaics != [] {
      var init, last := mosaics[..|mosaics| - 1], mosaics[|mosaics| - 1];
      assert multiset(mosaics) == multiset(init) + multiset{last} &&
             NativesOf(mosaics, currencyMosaicId) == NativesOf(init + [last], currencyMosaicId) &&
             OthersOf(mosaics, currencyMosaicId) == OthersOf(init + [last], currencyMosaicId) by {
        assert mosaics == init + [last];
      }
      SplitByCurrencyMultiset(init, currencyMosaicId);
      SplitByCurrencySnoc(init, last, currencyMosaicId);
    }
  }

  lemma {:induction false} SplitByCurrencyClassifies(mosaics: seq<Mosaic>, currencyMosaicId: string)
    ensures forall x :: x in NativesOf(mosaics, currencyMosaicId) ==> IsNativeMosaic(x, currencyMosaicId)
    ensures forall x :: x in OthersOf(mosaics, currencyMosaicId) ==> !IsNativeMosaic(x, currencyMosaicId)
  {
    if mosaics != [] {
      SplitByCurrencyClassifies(mosaics[..|mosaics| - 1], currencyMosaicId);
    }
  }

  /** `sortMosaics` returns a permutation of its input in which every currency
      mosaic comes before every other mosaic. */
  lemma SortMosaicsPermutesNativeFirst(mosaics: seq<Mosaic>, currencyMosaicId: string)
    ensures multiset(NativeFirst(mosaics, currencyMosaicId)) == multiset(mosaics)
    ensures var r := NativeFirst(mosaics, currencyMosaicId);
      var k := |NativesOf(mosaics, currencyMosaicId)|;
      forall i :: 0 <= i < |r| ==> (IsNativeMosaic(r[i], currencyMosaicId) <==> i < k)
  {
    var n := NativesOf(mosaics, currencyMosaicId);
    var o := OthersOf(mosaics, currencyMosaicId);
    SplitByCurrencyMultiset(mosaics, currencyMosaicId);
    SplitByCurrencyClassifies(mosaics, currencyMosaicId);
    ReverseMultiset(n);
    var r := NativeFirst(mosaics, currencyMosaicId);
    forall i | 0 <= i < |r| ensures IsNativeMosaic(r[i], currencyMosaicId) <==> i < |n| {
      if i < |n| {
        assert r[i] in Reverse(n);
      } else {
        assert r[i] == o[i - |n|];
        assert r[i] in o;
      }
    }
  }

  // ---------------------------------------------------------------------
  // getColorFromHash (hexadecimal path)
  // ---------------------------------------------------------------------

  /** `parseInt(c, 16)` for one character; `None` stands for NaN. */
  function HexDigitValue(c: char): (v: Option<int>)
    ensures v.Some? <==> IsHexDigit(c)
    ensures v.Some? ==> 0 <= v.value <= 15
  {
    if '0' <= c <= '9' then Some(c as int - '0' as int)
    else if 'a' <= c <= 'f' then Some(c as int - 'a' as int + 10)
    else if 'A' <= c <= 'F' then Some(c as int - 'A' as int + 10)
    else None
  }

  /** The running `totalHex`: NaN once any character is not a hex digit. */
  function SumHex(s: string): Option<int> {
    if s == [] then Some(0)
    else
      match (SumHex(s[..|s| - 1]), HexDigitValue(s[|s| - 1]))
      case (Some(t), Some(d)) => Some(t + d)
      case _ => None
  }

  /** `hexToRGB`: the mean digit value scaled to 0..255 and truncated; NaN
      for an empty string or a non-hex character. */
  function HexToRgbOf(s: string): Option<int> {
    match SumHex(s)
    case Some(t) => if |s| == 0 then None else Some(t * 255 / (15 * |s|))
    case None => None
  }

  /** `hexToRGB`, accumulating the digit values in a loop as the source does. */
  method HexToRgb(hexString: string) returns (v: Option<int>)
    ensures v == HexToRgbOf(hexString)
  {
    var total: Option<int> := Some(0);
    for i := 0 to |hexString|
      invariant total == SumHex(hexString[..i])
    {
      assert hexString[..i + 1][..i] == hexString[..i];
      var digit := HexDigitValue(hexString[i]);
      total := if total.Some? && digit.Some? then Some(total.value + digit.value) else None;
    }
    assert hexString[..|hexString|] == hexString;
    v := if total.Some? && |hexString| > 0 then Some(total.value * 255 / (15 * |hexString|)) else None;
  }

  lemma {:induction false} SumHexBounds(s: string)
    ensures SumHex(s).Some? <==> forall i :: 0 <= i < |s| ==> IsHexDigit(s[i])
    ensures SumHex(s).Some? ==> 0 <= SumHex(s).value <= 15 * |s|
  {
    if s != [] {
      var init := s[..|s| - 1];
      SumHexBounds(init);
      assert forall i :: 0 <= i < |init| ==> init[i] == s[i];
    }
  }

  lemma DivBound(x: int, k: int, b: int)
    requires k > 0 && 0 <= x <= b * k && b >= 0
    ensures 0 <= x / k <= b
  {
  }

  /** A channel is in 0..255 exactly for a non-empty run of hex digits, and
      NaN otherwise. */
  lemma HexToRgbRange(s: string)
    ensures HexToRgbOf(s).Some? <==> |s| >= 1 && forall i :: 0 <= i < |s| ==> IsHexDigit(s[i])
    ensures HexToRgbOf(s).Some? ==> 0 <= HexToRgbOf(s).value <= 255
  {
    SumHexBounds(s);
    if SumHex(s).Some? && |s| > 0 {
      DivBound(SumHex(s).value * 255, 15 * |s|, 255);
    }
  }

  datatype Color = Color(r: Option<int>, g: Option<int>, b: Option<int>)

  const Black: Color := Color(Some(0), Some(0), Some(0))

  /** The three thirds of a hash of length at least three: each segment is
      `|hash| / 3` characters; a remainder at the end is ignored. */
  function ColorOfHash(hash: Value): Color {
    if !hash.Str? || |hash.s| < 3 then Black
    else
      var s := hash.s;
      var c := |s| / 3;
      Color(HexToRgbOf(Substring(s, 0, c)), HexToRgbOf(Substring(s, c, c * 2)), HexToRgbOf(Substring(s, c * 2, c * 3)))
  }

  /** `getColorFromHash` with `isHex` true. */
  method GetColorFromHash(hash: Value) returns (color: Color)
    ensures color == ColorOfHash(hash)
  {
    color := Black;
    if !hash.Str? {
      return;
    }
    if |hash.s| < 3 {
      return;
    }
    var s := hash.s;
    var c := |s| / 3;
    var red := HexToRgb(Substring(s, 0, c));
    var green := HexToRgb(Substring(s, c, c * 2));
    var blue := HexToRgb(Substring(s, c * 2, c * 3));
    color := Color(red, green, blue);
  }

  /** A non-string or short hash gives black; a hash of at least three hex
      digits gives three channels in 0..255. */
  lemma ColorOfHashRange(hash: Value)
    ensures !hash.Str? || |hash.s| < 3 ==> ColorOfHash(hash) == Black
    ensures hash.Str? && |hash.s| >= 3 && (forall i :: 0 <= i < |hash.s| ==> IsHexDigit(hash.s[i])) ==>
      var col := ColorOfHash(hash);
      col.r.Some? && col.g.Some? && col.b.Some? &&
      0 <= col.r.value <= 255 && 0 <= col.g.value <= 255 && 0 <= col.b.value <= 255
  {
    if hash.Str? && |hash.s| >= 3 && (forall i :: 0 <= i < |hash.s| ==> IsHexDigit(hash.s[i])) {
      var s := hash.s;
      var c := |s| / 3;
      var red, green, blue := s[0..c], s[c..c * 2], s[c * 2..c * 3];
      assert forall i :: 0 <= i < |red| ==> red[i] == s[i];
      assert forall i :: 0 <= i < |green| ==> green[i] == s[c + i];
      assert forall i :: 0 <= i < |blue| ==> blue[i] == s[c * 2 + i];
      HexToRgbRange(red);
      HexToRgbRange(green);
      HexToRgbRange(blue);
    }
  }

  // ---------------------------------------------------------------------
  // truncString
  // ---------------------------------------------------------------------

  /** `truncString(str, strLen = 4)`. */
  function TruncString(str: Value, strLen: int := 4): (r: Value)
    ensures !str.Str? ==> r == str
    ensures str.Str? && |str.s| <= 2 * strLen ==> r == str
    ensures str.Str? && |str.s| > 2 * strLen && strLen >= 0 ==>
      r == Str(str.s[..strLen] + "..." + str.s[|str.s| - strLen..]) && |r.s| == 2 * strLen + 3
    ensures str.Str? && strLen < 0 ==> r == Str("...")
  {
    match str
    case Str(s) =>
      if |s| > strLen * 2
      then
        var head := Substring(s, 0, strLen);
        var tail := Substring(s, |s| - strLen, |s|);
        assert strLen < 0 ==> head == [] && tail == [] && head + "..." + tail == "...";
        assert strLen >= 0 ==> head == s[..strLen] && tail == s[|s| - strLen..];
        Str(head + "..." + tail)
      else str
    case _ => str
  }

  // ---------------------------------------------------------------------
  // Small lookups
  // ---------------------------------------------------------------------

  /** One entry of an account's activity buckets. */
  datatype ActivityBucket = ActivityBucket(startHeight: Value)

  /** `getLastActivityHeight`: the start height of the last bucket, or the
      "unavailable" message for no buckets. */
  function GetLastActivityHeight(activityBucket: seq<ActivityBucket>): (r: Value)
    ensures activityBucket == [] ==> r == Str(UNAVAILABLE)
    ensures forall b: seq<ActivityBucket>, e: ActivityBucket ::
      activityBucket == b + [e] ==> r == e.startHeight
  {
    if |activityBucket| > 0 then activityBucket[|activityBucket| - 1].startHeight else Str(UNAVAILABLE)
  }

  /** `isNativeNamespace`: whether the name is one of the native namespaces'
      names; `None` stands for a native list that was never loaded. */
  function IsNativeNamespace(namespaceName: string, nativeNamespaceNames: Option<seq<string>>): (r: bool)
    ensures r <==> nativeNamespaceNames.Some? && namespaceName in nativeNamespaceNames.value
  {
    if nativeNamespaceNames.None? then false
    else IndexOf(nativeNamespaceNames.value, namespaceName) != -1
  }

  /** The fields of a mosaic that `getMosaicName` reads. */
  datatype NamedMosaic = NamedMosaic(mosaicAliasName: Value, mosaicId: Value)

  /** The alias `getMosaicName` considers: the first of a list, or the value
      itself, with "N/A" for nothing. */
  function CandidateAlias(mosaic: NamedMosaic): Value {
    match mosaic.mosaicAliasName
    case Arr(names) => if |names| > 0 then names[0] else Str("N/A")
    case v => if Truthy(v) then v else Str("N/A")
  }

  /** `getMosaicName`: the mosaic's alias, or its id when it has none. */
  function GetMosaicName(mosaic: NamedMosaic): (r: Value)
    ensures mosaic.mosaicAliasName.Arr? && |mosaic.mosaicAliasName.items| == 0 ==> r == mosaic.mosaicId
    ensures mosaic.mosaicAliasName.Arr? && |mosaic.mosaicAliasName.items| > 0 ==>
      r == (if StrictEq(mosaic.mosaicAliasName.items[0], Str("N/A")) then mosaic.mosaicId
            else mosaic.mosaicAliasName.items[0])
    ensures !mosaic.mosaicAliasName.Arr? && !Truthy(mosaic.mosaicAliasName) ==> r == mosaic.mosaicId
    ensures !mosaic.mosaicAliasName.Arr? && Truthy(mosaic.mosaicAliasName) ==>
      r == (if StrictEq(mosaic.mosaicAliasName, Str("N/A")) then mosaic.mosaicId else mosaic.mosaicAliasName)
  {
    var alias := CandidateAlias(mosaic);
    if !StrictEq(alias, Str("N/A")) then alias else mosaic.mosaicId
  }
}
