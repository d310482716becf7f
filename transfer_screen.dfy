/**
 * The transfer form: the recipient and amount fields, the displayed balance,
 * and the check `handleSend` makes before it reports a (simulated) transfer.
 * The storage read and the balance lookup are inputs.
 */
module TransferScreen {
  import opened Wrappers
  import opened JsString

  /** An alert: title, message, and whether its OK button navigates back. */
  datatype Alert = Alert(title: string, message: string, okGoesBack: bool)

  const ERROR_TITLE: string := "Error"
  const FILL_ALL_FIELDS: string := "Please fill in all fields"
  const SENT_TITLE: string := "Transaction Sent!"
  const DEFAULT_BALANCE: string := "0.00"

  /** The confirmation text: "Sent <amount> tokens to <address>", with both values as typed. */
  function SentMessage(amount: string, toAddress: string): (m: string)
    ensures |m| == 5 + |amount| + 11 + |toAddress|
    ensures m[..5] == "Sent " && m[5..5 + |amount|] == amount
    ensures m[5 + |amount|..5 + |amount| + 11] == " tokens to " && m[5 + |amount| + 11..] == toAddress
  {
    "Sent " + amount + " tokens to " + toAddress
  }

  /**
   * `handleSend`: an error alert, with no navigation, when either field is
   * empty after trimming (whitespace only counts as empty); otherwise the
   * confirmation, whose OK goes back.
   */
  function HandleSend(toAddress: string, amount: string): (a: Alert)
    ensures a.okGoesBack <==> !IsBlank(toAddress) && !IsBlank(amount)
    ensures !a.okGoesBack ==> a == Alert(ERROR_TITLE, FILL_ALL_FIELDS, false)
    ensures a.okGoesBack ==> a.title == SENT_TITLE && a.message == SentMessage(amount, toAddress)
  {
    if Trim(toAddress) == [] || Trim(amount) == [] then Alert(ERROR_TITLE, FILL_ALL_FIELDS, false)
    else Alert(SENT_TITLE, SentMessage(amount, toAddress), true)
  }

  /** The confirmation gives back the amount and the address exactly as typed, untrimmed. */
  lemma ConfirmationKeepsInput(toAddress: string, amount: string)
    requires !IsBlank(toAddress) && !IsBlank(amount)
    ensures var m := HandleSend(toAddress, amount).message;
      m[5..5 + |amount|] == amount && m[|m| - |toAddress|..] == toAddress
  {
  }

  /** Padding a field with whitespace does not change whether sending is accepted. */
  lemma PaddingDoesNotMatter(toAddress: string, amount: string, pad: string)
    requires IsBlank(pad)
    ensures HandleSend(pad + toAddress + pad, amount).okGoesBack == HandleSend(toAddress, amount).okGoesBack
    ensures HandleSend(toAddress, pad + amount + pad).okGoesBack == HandleSend(toAddress, amount).okGoesBack
  {
    BlankPadding(toAddress, pad);
    BlankPadding(amount, pad);
  }

  lemma BlankPadding(s: string, pad: string)
    requires IsBlank(pad)
    ensures IsBlank(pad + s + pad) <==> IsBlank(s)
  {
    var t := pad + s + pad;
    if IsBlank(t) {
      forall i | 0 <= i < |s| ensures IsWhitespace(s[i]) {
        assert t[|pad| + i] == s[i];
      }
    }
    if IsBlank(s) {
      forall i | 0 <= i < |t| ensures IsWhitespace(t[i]) {
        if i < |pad| {
          assert t[i] == pad[i];
        } else if i < |pad| + |s| {
          assert t[i] == s[i - |pad|];
        } else {
          assert t[i] == pad[i - |pad| - |s|];
        }
      }
    }
  }

  /** `currentBalance || '0.00'`: the looked-up balance, or "0.00" when it is null or empty. */
  function BalanceOrDefault(looked: Option<string>): (r: string)
    ensures r != []
    ensures looked.Some? && looked.value != [] ==> r == looked.value
    ensures looked.None? || looked.value == [] ==> r == DEFAULT_BALANCE
  {
    if looked.Some? && looked.value != [] then looked.value else DEFAULT_BALANCE
  }

  /** The form's state: the two fields and the balance shown above them. */
  class TransferForm {
    var toAddress: string
    var amount: string
    var balance: string

    /** The balance shown is never empty. */
    ghost predicate Valid()
      reads this
    {
      balance != []
    }

    constructor ()
      ensures Valid() && toAddress == [] && amount == [] && balance == DEFAULT_BALANCE
    {
      toAddress := [];
      amount := [];
      balance := DEFAULT_BALANCE;
    }

    /** The recipient field's `onChangeText`. */
    method SetToAddress(text: string)
      requires Valid()
      modifies this
      ensures Valid() && toAddress == text && amount == old(amount) && balance == old(balance)
    {
      toAddress := text;
    }

    /** The amount field's `onChangeText`: stored as typed, with no filtering. */
    method SetAmount(text: string)
      requires Valid()
      modifies this
      ensures Valid() && amount == text && toAddress == old(toAddress) && balance == old(balance)
    {
      amount := text;
    }

    /**
     * `fetchBalance`: looks the balance up only when an address is stored,
     * and shows "0.00" when the lookup gives nothing.
     */
    method FetchBalance(storedAddress: Option<string>, looked: Option<string>)
      requires Valid()
      modifies this
      ensures Valid() && toAddress == old(toAddress) && amount == old(amount)
      ensures balance == if storedAddress.Some? && storedAddress.value != [] then BalanceOrDefault(looked) else old(balance)
    {
      if storedAddress.Some? && storedAddress.value != [] {
        balance := BalanceOrDefault(looked);
      }
    }

    /** The Send button: the alert `handleSend` shows; the form itself is left as it is. */
    method Send() returns (alert: Alert)
      ensures alert.okGoesBack <==> !IsBlank(toAddress) && !IsBlank(amount)
      ensures alert == HandleSend(toAddress, amount)
    {
      alert := HandleSend(toAddress, amount);
    }
  }
}
