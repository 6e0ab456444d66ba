/** The configuration and argument checks of lib/utils.js: the size and
    storage-allocation validators, the two in-place repairs of
    `storageAllocation`, the port checks in front of the listen probe, the
    Ethereum payout address filter and the daemon hostname default. */
module Utils {
  import opened JsValues

  // ---------------------------------------------------------------------
  // Sizes and storage allocation

  /** _isValidSize: a number that is not negative. */
  predicate IsValidSize(v: JsValue) {
    v.Num? && v.n >= 0
  }

  /** A valid size always passes repairConfig's first test: parseInt of its
      text gives the size back, so it is not NaN. */
  lemma ValidSizeParses(v: JsValue)
    requires IsValidSize(v)
    ensures ParseInt(ToString(v)) == Finite(v.n)
  {
    ParseIntOfIntToString(v.n, "");
    assert IntToString(v.n) + "" == IntToString(v.n);
  }

  predicate IsUnit(c: char) { c in {'T', 't', 'M', 'm', 'G', 'g', 'K', 'k'} }
  predicate IsB(c: char) { c == 'B' || c == 'b' }

  /** After the digits: an optional unit letter, then 'B' or 'b'. */
  predicate MatchesUnitB(s: string, k: nat) {
    (k < |s| && IsB(s[k]))
    || (k + 1 < |s| && IsUnit(s[k]) && IsB(s[k + 1]))
  }

  /** Whether /[0-9]+([Tt]|[Mm]|[Gg]|[Kk])?[Bb]/ matches s starting at k:
      one digit, then either more digits (the + loop) or the rest of the
      pattern. */
  predicate MatchesFrom(s: string, k: nat)
    decreases |s| - k
  {
    k < |s| && IsDigit(s[k]) && (MatchesFrom(s, k + 1) || MatchesUnitB(s, k + 1))
  }

  /** String#match with that pattern finds a match somewhere in s. */
  predicate ContainsAllocationPattern(s: string) {
    exists k :: 0 <= k < |s| && MatchesFrom(s, k)
  }

  /** _isValidStorageAllocationFormat: whether storageAllocation.toString()
      matches the pattern anywhere (the match array is truthy). */
  predicate IsValidStorageAllocationFormat(v: JsValue) {
    ContainsAllocationPattern(ToString(v))
  }

  /** The shortest matches: a single digit, an optional unit, then B. */
  predicate HasDigitUnitB(s: string) {
    exists k :: 0 <= k < |s| && IsDigit(s[k]) && MatchesUnitB(s, k + 1)
  }

  lemma {:induction false} MatchesFromShortens(s: string, k: nat)
    requires MatchesFrom(s, k)
    ensures exists j :: k <= j < |s| && IsDigit(s[j]) && MatchesUnitB(s, j + 1)
    decreases |s| - k
  {
    if !MatchesUnitB(s, k + 1) {
      MatchesFromShortens(s, k + 1);
      var j :| k + 1 <= j < |s| && IsDigit(s[j]) && MatchesUnitB(s, j + 1);
      assert k <= j;
    }
  }

  /** The unanchored match succeeds exactly when some digit is followed by an
      optional unit letter and then B or b. */
  lemma AllocationPatternShortest(s: string)
    ensures ContainsAllocationPattern(s) <==> HasDigitUnitB(s)
  {
    if ContainsAllocationPattern(s) {
      var k :| 0 <= k < |s| && MatchesFrom(s, k);
      MatchesFromShortens(s, k);
    }
    if HasDigitUnitB(s) {
      var k :| 0 <= k < |s| && IsDigit(s[k]) && MatchesUnitB(s, k + 1);
      assert MatchesFrom(s, k);
    }
  }

  /** A string without 'B' or 'b' never passes the format check. */
  lemma NoBNoAllocation(s: string)
    requires forall i :: 0 <= i < |s| ==> !IsB(s[i])
    ensures !ContainsAllocationPattern(s)
  {
    AllocationPatternShortest(s);
  }

  /** "10GB" and "5kb" pass; "10" and "10G" do not. */
  lemma AllocationFormatExamples()
    ensures IsValidStorageAllocationFormat(Str("10GB"))
    ensures IsValidStorageAllocationFormat(Str("5kb"))
    ensures !IsValidStorageAllocationFormat(Str("10"))
    ensures !IsValidStorageAllocationFormat(Str("10G"))
    ensures !IsValidStorageAllocationFormat(Num(10))
  {
    assert MatchesFrom("10GB", 1);
    assert MatchesFrom("5kb", 0);
    NoBNoAllocation("10");
    NoBNoAllocation("10G");
    NoBNoAllocation(IntToString(10));
  }

  /** A numeral followed by B passes the format check. */
  lemma DigitsThenBIsValid(s: string)
    requires s != [] && IsDigit(s[|s| - 1])
    ensures ContainsAllocationPattern(s + "B")
  {
    var t := s + "B";
    assert IsDigit(t[|s| - 1]) && MatchesUnitB(t, |s|);
    AllocationPatternShortest(t);
  }

  /** No number passes the format check: its text has no B. */
  lemma NumberNeverValidFormat(n: int)
    ensures !IsValidStorageAllocationFormat(Num(n))
  {
    var r := IntToString(n);
    forall i | 0 <= i < |r| ensures !IsB(r[i]) {
      if n < 0 && i > 0 { assert r[i] == r[1..][i - 1]; }
    }
    NoBNoAllocation(r);
  }

  /** Configuration as the code sees it; only storageAllocation is modelled. */
  class Config {
    var storageAllocation: JsValue

    constructor (allocation: JsValue)
      ensures storageAllocation == allocation
    {
      storageAllocation := allocation;
    }
  }

  /** The value repairConfig leaves in storageAllocation.  The code calls
      parseInt without a radix, which would also read a "0x" prefix as hex;
      that cannot change the outcome here, since only numbers pass
      IsValidSize and their text never starts with "0x". */
  function Repaired(v: JsValue): JsValue {
    if ParseInt(ToString(v)) != NaN && IsValidSize(v) then Str(ToString(v) + "B") else v
  }

  /** repairConfig appends B exactly to non-negative numbers, and the
      repaired value then passes the format check. */
  lemma RepairedExactly(v: JsValue)
    ensures Repaired(v) != v <==> IsValidSize(v)
    ensures IsValidSize(v) ==> Repaired(v) == Str(IntToString(v.n) + "B")
                               && IsValidStorageAllocationFormat(Repaired(v))
    ensures v.Str? || (v.Num? && v.n < 0) ==> Repaired(v) == v
  {
    if IsValidSize(v) {
      ValidSizeParses(v);
      DigitsThenBIsValid(IntToString(v.n));
    }
  }

  /** repairConfig: rewrites storageAllocation in place and returns the same
      config object. */
  method RepairConfig(config: Config) returns (r: Config)
    modifies config
    ensures r == config
    ensures config.storageAllocation == Repaired(old(config.storageAllocation))
  {
    var v := config.storageAllocation;
    if ParseInt(ToString(v)) != NaN && IsValidSize(v) {
      config.storageAllocation := Str(ToString(v) + "B");
    }
    return config;
  }

  /** What validateAllocation reports, and the allocation it leaves. */
  datatype AllocationVerdict = Accepted(allocation: JsValue) | Rejected(message: string)

  const InvalidStorageSizePrefix := "Invalid storage size specified: "

  /** validateAllocation on a value: a valid format is kept; otherwise a
      NaN value is rejected and anything else gets B appended. */
  function ValidatedAllocation(v: JsValue): (r: AllocationVerdict)
    ensures IsValidStorageAllocationFormat(v) ==> r == Accepted(v)
    ensures r.Rejected? <==> !IsValidStorageAllocationFormat(v) && IsNaN(v)
    ensures r.Rejected? ==> r.message == InvalidStorageSizePrefix + ToString(v)
    ensures !IsValidStorageAllocationFormat(v) && !IsNaN(v) ==> r == Accepted(Str(ToString(v) + "B"))
  {
    if IsValidStorageAllocationFormat(v) then Accepted(v)
    else if IsNaN(v) then Rejected(InvalidStorageSizePrefix + ToString(v))
    else Accepted(Str(ToString(v) + "B"))
  }

  /** A bare decimal numeral gets B appended, and the result then passes. */
  lemma ValidatedDigitString(s: string)
    requires s != [] && AllDigits(s)
    ensures ValidatedAllocation(Str(s)) == Accepted(Str(s + "B"))
    ensures IsValidStorageAllocationFormat(Str(s + "B"))
  {
    NoBNoAllocation(s);
    DigitStringIsNumeric(s);
    DigitsThenBIsValid(s);
  }

  /** A number always gets B appended, and the result then passes. */
  lemma ValidatedNumber(n: int)
    ensures ValidatedAllocation(Num(n)) == Accepted(Str(IntToString(n) + "B"))
    ensures IsValidStorageAllocationFormat(Str(IntToString(n) + "B"))
  {
    NumberNeverValidFormat(n);
    DigitsThenBIsValid(IntToString(n));
  }

  /** "B" is NaN and fails the format check. */
  lemma BRejected()
    ensures ValidatedAllocation(Str("B")) == Rejected(InvalidStorageSizePrefix + "B")
  {
    assert TrimStart("B") == "B";
    assert TrimEnd("B") == "B";
    assert ExponentStart("B") == 1;
    assert "B"[..1] == "B";
    assert IndexOf("B", '.') == None;
    assert !IsMantissa("B");
    assert IsNaN(Str("B"));
    AllocationPatternShortest("B");
    assert !IsValidStorageAllocationFormat(Str("B"));
  }

  /** The empty string is not NaN (it converts to 0) and fails the format
      check, so it is accepted as "B". */
  lemma EmptyAllocationAccepted()
    ensures ValidatedAllocation(Str("")) == Accepted(Str("B"))
  {
    assert !ContainsAllocationPattern("");
    assert TrimStart("") == "" && TrimEnd("") == "";
    assert IsNumericString("");
    assert "" + "B" == "B";
  }

  /** The accepted "B" fails the format check and is NaN: validating it
      again rejects it. */
  lemma EmptyAllocationAcceptedThenRejected()
    ensures ValidatedAllocation(Str("")) == Accepted(Str("B"))
    ensures ValidatedAllocation(ValidatedAllocation(Str("")).allocation)
            == Rejected(InvalidStorageSizePrefix + "B")
  {
    EmptyAllocationAccepted();
    BRejected();
  }

  /** validateAllocation: on success (None) the config holds the validated
      allocation; on failure it is left untouched and the message returned. */
  method ValidateAllocation(conf: Config) returns (err: Option<string>)
    modifies conf
    ensures ValidatedAllocation(old(conf.storageAllocation)).Accepted? ==>
              err == None && conf.storageAllocation == ValidatedAllocation(old(conf.storageAllocation)).allocation
    ensures ValidatedAllocation(old(conf.storageAllocation)).Rejected? ==>
              err == Some(ValidatedAllocation(old(conf.storageAllocation)).message)
              && conf.storageAllocation == old(conf.storageAllocation)
  {
    var v := conf.storageAllocation;
    if !IsValidStorageAllocationFormat(v) {
      if IsNaN(v) {
        return Some(InvalidStorageSizePrefix + ToString(v));
      }
      conf.storageAllocation := Str(ToString(v) + "B");
    }
    return None;
  }

  // ---------------------------------------------------------------------
  // Ports

  /** How portIsAvailable treats its argument before any socket is opened. */
  datatype PortVerdict = InvalidPort | WellKnownPort | Probe

  const InvalidPortMessage := "Invalid port"
  const WellKnownPortMessage := "Using a port in the well-known range is strongly discouraged"

  function CheckPort(port: JsValue): (r: PortVerdict)
    ensures r == InvalidPort <==> !port.Num? || port.n < 0 || port.n > 65535
    ensures r == WellKnownPort <==> port.Num? && 0 <= port.n <= 1024
    ensures r == Probe <==> port.Num? && 1025 <= port.n <= 65535
  {
    if !port.Num? || port.n < 0 || port.n > 65535 then InvalidPort
    else if port.n <= 1024 then WellKnownPort
    else Probe
  }

  /** The error each refused port is called back with. */
  function PortError(v: PortVerdict): string
    requires v != Probe
  {
    if v == InvalidPort then InvalidPortMessage else WellKnownPortMessage
  }

  // ---------------------------------------------------------------------
  // Payout addresses

  /** The contract and contract-owner addresses that may not be used. */
  const DisallowedAddresses: seq<string> := [
    "0xb64ef51c888972c908cfacf59b47c1afbc0ab8ac",
    "0x00f6bf3c5033e944feddb3dc8ffb4d47af17ef0b"
  ]

  /** isValidEthereumAddress, with web3-utils' isAddress as a parameter. */
  function IsValidEthereumAddress(address: JsValue, isAddress: string -> bool): (ok: bool)
    ensures ok <==> address.Str? && ToLowerAscii(address.s) !in DisallowedAddresses
                    && |address.s| >= 2 && address.s[..2] == "0x" && isAddress(address.s)
  {
    if !address.Str? then false
    else if ToLowerAscii(address.s) in DisallowedAddresses then false
    else |address.s| >= 2 && address.s[..2] == "0x" && isAddress(address.s)
  }

  /** A spelling of a disallowed address in any letter case is refused,
      whatever isAddress says. */
  lemma DisallowedInAnyCase(s: string, which: nat, isAddress: string -> bool)
    requires which < |DisallowedAddresses|
    requires |s| == |DisallowedAddresses[which]|
    requires forall i :: 0 <= i < |s| ==> LowerChar(s[i]) == DisallowedAddresses[which][i]
    ensures !IsValidEthereumAddress(Str(s), isAddress)
  {
    assert ToLowerAscii(s) == DisallowedAddresses[which];
  }

  /** Without the lower-case 0x prefix an address is refused. */
  lemma NeedsHexPrefix(s: string, isAddress: string -> bool)
    requires |s| < 2 || s[..2] != "0x"
    ensures !IsValidEthereumAddress(Str(s), isAddress)
  {
  }

  // ---------------------------------------------------------------------
  // Daemon hostname

  const LocalHost := "127.0.0.1"

  /** connectToDaemon and checkDaemonRpcStatus: a falsy hostname (absent or
      empty) becomes 127.0.0.1; any other is kept. */
  function DaemonHostname(hostname: Option<string>): (h: string)
    ensures h != ""
    ensures Truthy(hostname) ==> h == hostname.value
    ensures !Truthy(hostname) ==> h == LocalHost
  {
    if !Truthy(hostname) then LocalHost else hostname.value
  }
}
