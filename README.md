# Wallet app core, modelled in Dafny

This project models the computational core of a React Native smart-account
wallet on Sepolia:

- the account-abstraction provider: it encodes EIP-20 `transfer(address,uint256)`
  and `balanceOf(address)` calldata by hand, reads a `balanceOf` reply, multiplies
  the gas estimate by the gas price, converts the gas cost into a paymaster fee,
  and decides whether a smart account is deployed;
- the Add Funds screen: the amount field filter, the thousands-grouped display,
  the Next rule and what happens after the mock payment succeeds;
- the wallet screen: address truncation, the explorer link, and the wallet data
  and loading flags during load and refresh;
- the wallet-creation modal's four-phase machine;
- the transfer form's validation, confirmation message and balance fallback.

Every SDK call, storage read and biometric prompt becomes an input. A call that
can throw becomes a `Result`, and a value that may be null or undefined becomes
an `Option`. The JavaScript string built-ins the code relies on are in
`js_string.dfy`: `padStart`, `slice`, `substring` with its clamping and swapping,
`split`, and `trim` with the ECMAScript whitespace set. Radix printing and
parsing (`toString(16)`, `BigInt`, `parseInt`) are in `radix.dfy`.

Screens whose state the source updates in place are classes:
`AddFundsScreen.AddFunds`, `WalletScreen.Wallet`,
`CreationLoadingModal.LoadingModal` and `TransferScreen.TransferForm`. Each
method states the new state in full. The pure parts are functions with lemmas.

Four behaviours of the source are modelled as written:

- In `loadWalletData` the `shouldRefreshBalance` branches are identical, so the
  flag does not change anything.
- A balance lookup that throws during load leaves `isBalanceLoading` true. The
  refresh button then stays disabled, because `setIsBalanceLoading(false)` runs
  only on the success path.
- `onRefresh` clears `refreshing` whether the lookup succeeds or throws.
- A `balanceOf` reply of exactly `"0x"` is truthy. `BigInt("0x")` then throws,
  so the balance call fails instead of returning 0.

## Model

| member | source | states |
|---|---|---|
| JsString.PadStart | src/aaProvider.ts:137 | `padStart` fills with the pad character up to the width and never cuts a longer string |
| JsString.SliceFrom | src/aaProvider.ts:137 | `slice(2)` is the string after its first two characters, and empty for a shorter string |
| JsString.Substring | src/screens/WalletScreen.tsx:54 | `substring(a, b)` is `s[a..b]` for ordered arguments in range, `s[b..a]` when they come reversed, the whole string when they cover it, and empty when both lie on the same side outside it |
| JsString.SubstringSwap | src/screens/WalletScreen.tsx:54 | swapping the two arguments of `substring` does not change the result |
| JsString.SubstringClamps | src/screens/WalletScreen.tsx:54 | an argument below 0 acts as 0 and one past the end acts as the length |
| JsString.SubstringFrom | src/screens/WalletScreen.tsx:54 | `substring(start)` is the suffix from `start`, the whole string for a negative start, and empty past the end |
| JsString.Split | src/screens/AddFundsScreen.tsx:81 | `split('.')` gives at least one piece, no piece holds the separator, the first piece is a prefix, and joining the pieces gives the input back |
| JsString.Trim | src/screens/TransferScreen.tsx:44 | `trim()` is empty exactly when the string is all ECMAScript whitespace |
| Radix.ToDigits | src/aaProvider.ts:137 | `toString(16)` is non-empty lower-case digits of the base, with a leading zero only for zero |
| Radix.ToStringRadix | src/aaProvider.ts:137 | a bigint's `toString(16)` is its digits, preceded by a minus sign when it is negative |
| Radix.ValueOfDigits | src/aaProvider.ts:228 | reading back the printed digits of `n` gives `n` |
| Radix.DigitsOfValue | src/screens/AddFundsScreen.tsx:82 | a lower-case digit string without a leading zero is what printing its value gives |
| Radix.ValueLeadingZeros | src/screens/AddFundsScreen.tsx:82 | leading zeros do not change the value `parseInt` reads |
| Radix.DigitsLengthBelow | src/aaProvider.ts:137 | a value below 16^64 has at most 64 hex digits |
| Radix.DigitsLengthAtLeast | src/aaProvider.ts:137 | from 16^64 on the hex digits are more than 64 |
| Radix.PowTwoSixteen | src/aaProvider.ts:137 | 2^(4k) = 16^k, so the uint256 bound 2^256 is 16^64 |
| AaProvider.Word | src/aaProvider.ts:137 | an argument word is the hex left-padded with zeros to 64 characters and is never cut |
| AaProvider.TransferCalldata | src/aaProvider.ts:137 | transfer calldata starts with the selector `0xa9059cbb` and is at least selector plus two words long |
| AaProvider.BalanceOfCalldata | src/aaProvider.ts:220 | balanceOf calldata starts with the selector `0x70a08231` and is at least selector plus one word long |
| AaProvider.DecodeTransfer | src/aaProvider.ts:137 | ABI decoding of transfer calldata accepts only the selector plus an address word and a 64-digit amount word, and yields a 42-character recipient and an amount below 2^256 |
| AaProvider.DecodeBalanceOf | src/aaProvider.ts:220 | ABI decoding of balanceOf calldata accepts only the selector plus one address word |
| AaProvider.AmountWord | src/aaProvider.ts:137 | for an amount below 2^256 the amount word is exactly 64 hex digits that denote the amount |
| AaProvider.AddressWord | src/aaProvider.ts:137 | for a 42-character address the recipient word is 24 zeros and then the 40 characters after the first two |
| AaProvider.TransferCalldataLayout | src/aaProvider.ts:137 | for a 42-character address and an amount below 2^256 the calldata is 138 characters: the selector, 24 zeros, the address hex, and the zero-padded amount |
| AaProvider.TransferRoundTrip | src/aaProvider.ts:137 | decoding the transfer calldata gives back the address after its first two characters and the amount |
| AaProvider.TransferRecipientIsAddress | src/aaProvider.ts:137 | a `0x` address decodes to itself |
| AaProvider.TransferIgnoresPrefix | src/aaProvider.ts:137 | `to.slice(2)` drops the first two characters whether or not they are `0x` |
| AaProvider.TransferAmountNotTruncated | src/aaProvider.ts:137 | from 2^256 on the amount field is longer than 64 characters, the calldata is longer than 138, and it no longer decodes |
| AaProvider.TransferNegativeAmount | src/aaProvider.ts:137 | a negative bigint puts a minus sign in the calldata, which then does not decode |
| AaProvider.BalanceOfLayout | src/aaProvider.ts:220 | for an address, balanceOf calldata is the selector, 24 zeros and the 40 address characters, 74 characters long, and it decodes back to the address |
| AaProvider.TransferRequest | src/aaProvider.ts:139-143 | the transaction goes to the token contract with zero ether, and its data decodes to the recipient and the amount |
| AaProvider.ExecuteUsdtTransfer | src/aaProvider.ts:135-149 | the hash is passed through on success, and any failure becomes "Failed to execute USDT transfer" |
| AaProvider.ParseBigInt | src/aaProvider.ts:228 | `BigInt` reads a `0x` hex literal as its base-16 value and a decimal literal as its base-10 value, reads "" as 0 (the guard at line 227 keeps "" from reaching it), and rejects "0x" |
| AaProvider.UsdtBalance | src/aaProvider.ts:217-235 | no data reads as 0; a `0x` reply with hex digits reads as their base-16 value; other data succeeds exactly when `BigInt` accepts it; "0x" and a thrown call give "Failed to get USDT balance" |
| AaProvider.BalanceReplyRoundTrip | src/aaProvider.ts:227-229 | a uint256 reply word reads back as the balance it encodes |
| AaProvider.EstimateGasCost | src/aaProvider.ts:166-180 | the gas cost is estimate times price when both calls succeed, and "Failed to estimate gas cost" otherwise |
| AaProvider.PaymasterFee | src/aaProvider.ts:203 | the fee is floor(gasCost * 1000 / 10^18), the largest fee whose ether value the gas cost covers |
| AaProvider.EstimatePaymasterFee | src/aaProvider.ts:197-209 | the fee is that of the estimated gas cost, and any failure becomes "Failed to estimate paymaster fee" |
| AaProvider.PaymasterFeeInFeeUnits | src/aaProvider.ts:203 | the fee is the gas cost counted in whole units of 10^15 wei |
| AaProvider.PaymasterFeeMonotone | src/aaProvider.ts:203 | a larger gas cost never gives a smaller fee |
| AaProvider.PaymasterFeeZeroBelowUnit | src/aaProvider.ts:203 | a gas cost below 10^15 wei gives fee 0 |
| AaProvider.IsSmartAccountDeployed | src/aaProvider.ts:244-253 | deployed exactly when the bytecode lookup succeeds with code present and not "0x", and false when the lookup throws |
| AddFundsScreen.Clean | src/screens/AddFundsScreen.tsx:103 | the filter keeps only digits and dots and never lengthens the text |
| AddFundsScreen.CleanAppend | src/screens/AddFundsScreen.tsx:103 | the filter works piece by piece over concatenation |
| AddFundsScreen.CleanKeepsAmountText | src/screens/AddFundsScreen.tsx:103 | text of digits and dots passes the filter unchanged |
| AddFundsScreen.CleanDropsOther | src/screens/AddFundsScreen.tsx:103 | any other character is dropped wherever it stands |
| AddFundsScreen.CleanIdempotent | src/screens/AddFundsScreen.tsx:103 | filtering twice equals filtering once |
| AddFundsScreen.CleanEmptyIff | src/screens/AddFundsScreen.tsx:78-79 | the filtered text is empty exactly when the input has no digit and no dot |
| AddFundsScreen.GroupThousands | src/screens/AddFundsScreen.tsx:82 | the en-US grouping removes to the digits again, puts commas exactly every fourth place from the right, and adds (n-1)/3 commas |
| AddFundsScreen.IntegerPart | src/screens/AddFundsScreen.tsx:81 | the piece before the first dot holds decimal digits only |
| AddFundsScreen.FormatInteger | src/screens/AddFundsScreen.tsx:82 | `parseInt(...).toLocaleString('en-US')` is never empty |
| AddFundsScreen.FormatAmount | src/screens/AddFundsScreen.tsx:76-84 | `formatAmount` is "" exactly when the filtered input is empty |
| AddFundsScreen.FormatWholeAmount | src/screens/AddFundsScreen.tsx:81-83 | without a dot only the formatted integer part is shown |
| AddFundsScreen.FormatKeepsOnlyFraction | src/screens/AddFundsScreen.tsx:81-83 | with one dot the fraction follows verbatim, even when it is empty |
| AddFundsScreen.FormatKeepsFirstFraction | src/screens/AddFundsScreen.tsx:81-83 | only the first fraction is kept, unrounded, and text after a second dot is dropped |
| AddFundsScreen.FormatLeadingDot | src/screens/AddFundsScreen.tsx:81-82 | an amount that starts with a dot shows "NaN" before the dot |
| AddFundsScreen.FormatIntegerDigits | src/screens/AddFundsScreen.tsx:82 | the shown integer part is grouped and, without commas, is the digits of its value |
| AddFundsScreen.FormatIntegerDropsLeadingZeros | src/screens/AddFundsScreen.tsx:82 | leading zeros of the integer part do not show |
| AddFundsScreen.DecimalDigitsRoundTrip | src/screens/AddFundsScreen.tsx:82 | digits without a leading zero print back unchanged |
| AddFundsScreen.CleanFormatRoundTrip | src/screens/AddFundsScreen.tsx:76-84 | filtering the displayed text gives back the stored amount when the integer part is non-empty without leading zeros and there is at most one dot |
| AddFundsScreen.NextEnabledAfterTyping | src/screens/AddFundsScreen.tsx:113-115 | after typing, Next is enabled exactly when the text had a digit or a dot |
| AddFundsScreen.PaymentDecision | src/screens/AddFundsScreen.tsx:43-69 | the sheet is hidden, and the app goes to MainApp/Home with a balance refresh, exactly when there is no biometric hardware or authentication succeeds; no hardware shows "No hardware for authentication"; a failed authentication alerts "Authentication failed" and keeps the sheet; a rejected hardware check or prompt, which nothing catches, shows nothing, keeps the sheet and does not navigate |
| AddFundsScreen.AddFunds.constructor | src/screens/AddFundsScreen.tsx:35-36 | the amount starts empty and the sheet hidden |
| AddFundsScreen.AddFunds.ChangeText | src/screens/AddFundsScreen.tsx:103 | the stored amount becomes the filtered text and stays digits and dots |
| AddFundsScreen.AddFunds.PressNext | src/screens/AddFundsScreen.tsx:112-115 | a press is handled, showing the sheet, exactly when `NextDisabled` (`!amount`) does not hold |
| AddFundsScreen.AddFunds.ClosePaySheet | src/screens/AddFundsScreen.tsx:123 | closing hides the sheet and keeps the amount |
| AddFundsScreen.AddFunds.HandlePaymentSuccess | src/screens/AddFundsScreen.tsx:43-69 | the outcome follows the decision table, including rejected calls, the sheet is hidden exactly when it says so, and the amount keeps only digits and dots |
| WalletScreen.TruncateAddress | src/screens/WalletScreen.tsx:52-55 | empty exactly for an empty address; otherwise min(6,n) + 3 + min(4,n) characters long |
| WalletScreen.TruncateShape | src/screens/WalletScreen.tsx:54 | a non-empty address shows its clamped first six, "...", and its clamped last four characters |
| WalletScreen.TruncateLong | src/screens/WalletScreen.tsx:54 | from ten characters on the result is 13 characters: the first six, "...", and the last four |
| WalletScreen.TruncateHexAddress | src/screens/WalletScreen.tsx:54 | a 42-character `0x` address shows as 13 characters starting with "0x" |
| WalletScreen.TruncateIdempotent | src/screens/WalletScreen.tsx:54 | truncating an already truncated address changes nothing |
| WalletScreen.ExplorerUrl | src/screens/WalletScreen.tsx:200 | the link is the Sepolia Etherscan address-page prefix followed by the address |
| WalletScreen.ResolveAddress | src/screens/WalletScreen.tsx:133-138 | the route's address when non-empty, else the stored one when non-empty, else none |
| WalletScreen.ResolveAddressFound | src/screens/WalletScreen.tsx:133-138 | an address is found exactly when the route or storage has a non-empty one |
| WalletScreen.MergeOnLoad | src/screens/WalletScreen.tsx:139-143 | the address is replaced, non-empty previous balances are kept, and missing ones default to "0" and "0.00" |
| WalletScreen.MergeOnLoadIdempotent | src/screens/WalletScreen.tsx:139-143 | merging twice with the same address equals merging once |
| WalletScreen.ApplyRefresh | src/screens/WalletScreen.tsx:109-113 | a refresh replaces both balances and keeps the address, and no data stays no data |
| WalletScreen.Wallet.constructor | src/screens/WalletScreen.tsx:60-64 | no wallet data, loading, not refreshing, balance not loading |
| WalletScreen.Wallet.LoadWalletData | src/screens/WalletScreen.tsx:125-184 | without an address only `isLoading` moves; with one the data is the fetched balances, or the merged old ones with the balance spinner left on when the lookup throws; `isLoading` ends false |
| WalletScreen.Wallet.BeginRefresh | src/screens/WalletScreen.tsx:97-100 | a no-op without wallet data (which, by `Valid`, always has an address), otherwise `refreshing` is set |
| WalletScreen.Wallet.FinishRefresh | src/screens/WalletScreen.tsx:104-119 | `refreshing` ends false either way; new balances apply on success and the data is unchanged on failure |
| WalletScreen.Wallet.PressRefresh | src/screens/WalletScreen.tsx:281-285 | the button starts a refresh exactly when `RefreshDisabled` (`refreshing || isBalanceLoading`) does not hold and there is wallet data; `refreshing` is set exactly when it starts, and nothing else changes |
| WalletScreen.Wallet.EtherscanLink | src/screens/WalletScreen.tsx:198-203 | a link exists exactly when there is wallet data (which, by `Valid`, always has an address), and it is that address's explorer URL |
| CreationLoadingModal.OnVisibility | src/components/CreationLoadingModal.tsx:25-31 | showing while idle starts authenticating, hiding resets to idle from any phase, and otherwise nothing changes |
| CreationLoadingModal.Flow | src/components/CreationLoadingModal.tsx:33-61 | a run advances at most one phase; authenticating advances only on success and escaping only on creation; failures close with "Authentication failed" or "An error occurred"; created resets navigation to [Wallet] |
| CreationLoadingModal.RenderContent | src/components/CreationLoadingModal.tsx:64-78 | escaping shows "Escaping the matrix...", created shows "Wallet created.", and idle and authenticating show nothing |
| CreationLoadingModal.StepAdvancesAtMostOne | src/components/CreationLoadingModal.tsx:25-61 | any event either hides back to idle or moves the phase forward by at most one |
| CreationLoadingModal.RunWhileShown | src/components/CreationLoadingModal.tsx:25-53 | while the modal is shown the phase never goes back and never skips a step |
| CreationLoadingModal.EscapingNeedsAuth | src/components/CreationLoadingModal.tsx:35-42 | escaping is reached only through a successful authentication |
| CreationLoadingModal.CreatedNeedsAuthThenCreation | src/components/CreationLoadingModal.tsx:35-47 | created is reached only by a successful wallet creation that follows a successful authentication |
| CreationLoadingModal.LoadingModal.constructor | src/components/CreationLoadingModal.tsx:23 | the phase starts idle |
| CreationLoadingModal.LoadingModal.SetVisible | src/components/CreationLoadingModal.tsx:25-31 | the phase follows the visibility effect, and hiding resets it to idle |
| CreationLoadingModal.LoadingModal.ExecuteFlow | src/components/CreationLoadingModal.tsx:33-61 | the new phase and the effect are those of one run of the flow |
| TransferScreen.SentMessage | src/screens/TransferScreen.tsx:52 | the message is "Sent ", the amount, " tokens to " and the address, each readable back at its place |
| TransferScreen.HandleSend | src/screens/TransferScreen.tsx:42-60 | rejected with "Error" / "Please fill in all fields" and no navigation exactly when either field is blank after trimming; otherwise "Transaction Sent!" with the message and OK going back |
| TransferScreen.ConfirmationKeepsInput | src/screens/TransferScreen.tsx:50-52 | the confirmation carries the untrimmed amount and address |
| TransferScreen.PaddingDoesNotMatter | src/screens/TransferScreen.tsx:44-46 | whitespace around a field does not change whether sending is accepted |
| TransferScreen.BalanceOrDefault | src/screens/TransferScreen.tsx:30 | a null or empty lookup shows "0.00", and any other result is shown as it is |
| TransferScreen.TransferForm.constructor | src/screens/TransferScreen.tsx:21-23 | both fields start empty and the balance at "0.00" |
| TransferScreen.TransferForm.SetToAddress | src/screens/TransferScreen.tsx:89 | the recipient becomes the typed text, and nothing else changes |
| TransferScreen.TransferForm.SetAmount | src/screens/TransferScreen.tsx:100 | the amount becomes the typed text unfiltered, and nothing else changes |
| TransferScreen.TransferForm.FetchBalance | src/screens/TransferScreen.tsx:25-34 | the balance is looked up only when an address is stored, falls back to "0.00", and is never empty |
| TransferScreen.TransferForm.Send | src/screens/TransferScreen.tsx:42-60 | the alert is `handleSend`'s for the current fields, and the form is unchanged |

## Left out

- JsString: strings are sequences of code points, while JavaScript's `length`, `slice`, `substring` and `padStart` count UTF-16 code units. Results differ for characters outside the Basic Multilingual Plane.
- AddFundsScreen.FormatAmount: requires the integer part to be at most 2^53 - 1. Above that, `parseInt` returns a rounded double, and its grouped digits are not modelled.
- AaProvider.ParseBigInt: models only the empty string, the `0x` hex and plain decimal literals. Surrounding whitespace, a sign, and the `0b` and `0o` forms are treated like any string `BigInt` rejects. A hex reply of any length is read in full.
- CreationLoadingModal.Flow: each run of the flow finishes before the next event. An authentication or wallet creation that completes after the modal was hidden still calls `setPhase` in the source; that interleaving is not modelled.
- CreationLoadingModal.LoadingModal.ExecuteFlow: the five-second minimum delay, the one-second navigation delay and the cleanup returned from inside the async function are not modelled. The navigation reset is the effect of the created phase.
- WalletScreen.Wallet.LoadWalletData: the USD balance is the lookup's input. `parseFloat(tokenBalance) * price` with `toFixed(2)` is floating point and is not modelled. `src/services/WalletService.ts` as present does not export `getTokenBalance` or `getTokenPrice`; the lookup is a parameter, so both outcomes stay in the model.
- WalletScreen.Wallet: the spin animation, haptics, clipboard copy, `Linking.openURL` and the tab switch are side effects without state that the model reads.
- `formatUsd` and `formatToken` (float `toLocaleString`) and the pay sheet's `toFixed(2)` are floating point.
- The smart-account client creation, `getSmartAccountAddress` and the other pass-through calls in `src/aaProvider.ts` only forward SDK results. Their results are the inputs above.
- The keccak derivation of the selectors: `0xa9059cbb` and `0x70a08231` are constants.
- `src/services/WalletService.ts` (SecureStore/AsyncStorage reads, `ethers` wallet creation, `formatEther`) is not part of this model. What it returns is an input: the stored address, the balance lookup, and whether `createWallet` succeeded.
- `Alert.alert`, navigation and `onClose` are returned as values (`PaymentOutcome`, `Effect`, `Alert`) instead of being performed.
- The other screens, navigators, icons and configuration files hold presentation only.
