/** The admission filter's fixed set of excluded addresses
    (src/config/ignoredAddresses.ts). The literals are written in mixed case,
    exactly as in the source. */
module IgnoredAddresses {
  import opened Strings

  const KyberSwap: string := "0x63242A4Ea82847b20E506b63B0e2e2eFF0CC6cB0"
  const BurnAddress: string := "0x000000000000000000000000000000000000dEaD"
  const SwapProvider: string := "0x3053530aBC03731BC78DE738F607748435F4796d"
  const Aerodrome: string := "0xcF77a3Ba9A5CA399B7c97c74d54e5b1Beb874E43"

  const Ignored: set<string> := {KyberSwap, BurnAddress, SwapProvider, Aerodrome}

  /** `IGNORED_ADDRESSES.has(a)`: exact, case-sensitive membership. */
  predicate IsIgnored(a: string)
  {
    a in Ignored
  }

  /** "0x" followed by forty hexadecimal digits. */
  predicate IsHexAddress(a: string)
  {
    |a| == 42 && a[0] == '0' && a[1] == 'x' && forall i :: 2 <= i < 42 ==> IsHexDigit(a[i])
  }

  predicate HasUpper(a: string)
  {
    exists i :: 0 <= i < |a| && IsUpper(a[i])
  }

  /** The set holds exactly four distinct addresses. */
  lemma IgnoredHasFourEntries()
    ensures |Ignored| == 4
  {
    assert KyberSwap[2] != BurnAddress[2];
    assert KyberSwap[2] != SwapProvider[2];
    assert KyberSwap[2] != Aerodrome[2];
    assert BurnAddress[2] != SwapProvider[2];
    assert BurnAddress[2] != Aerodrome[2];
    assert SwapProvider[2] != Aerodrome[2];
  }

  /** Every entry is "0x" followed by forty hexadecimal digits. */
  lemma IgnoredAreHexAddresses()
    ensures forall a :: a in Ignored ==> IsHexAddress(a)
  {
    KyberSwapIsHex();
    BurnAddressIsHex();
    SwapProviderIsHex();
    AerodromeIsHex();
  }

  lemma KyberSwapIsHex() ensures IsHexAddress(KyberSwap) {}

  lemma BurnAddressIsHex() ensures IsHexAddress(BurnAddress) {}

  lemma SwapProviderIsHex() ensures IsHexAddress(SwapProvider) {}

  lemma AerodromeIsHex() ensures IsHexAddress(Aerodrome) {}

  /** Every entry carries at least one upper-case letter. */
  lemma EveryEntryHasUpper()
    ensures forall a :: a in Ignored ==> HasUpper(a)
  {
    assert IsUpper(KyberSwap[7]);
    assert IsUpper(BurnAddress[39]);
    assert IsUpper(SwapProvider[10]);
    assert IsUpper(Aerodrome[3]);
  }

  /** Hence no string without upper-case letters, and in particular no
      lower-cased string, is ever a member. */
  lemma LowerCasedNeverIgnored(a: string)
    ensures !IsIgnored(ToLower(a))
  {
    EveryEntryHasUpper();
  }

  /** The burn address literal is a member; its lower-case form is not. */
  lemma MembershipIsCaseSensitive()
    ensures IsIgnored(BurnAddress)
    ensures !IsIgnored(ToLower(BurnAddress))
    ensures ToLower(BurnAddress) != BurnAddress
  {
    LowerCasedNeverIgnored(BurnAddress);
  }
}
