/**
 * The Add Funds screen: the amount field keeps only digits and '.', shows
 * the amount with its integer part grouped by thousands, enables Next only
 * for a non-empty amount, and after the mock payment sheet reports success
 * decides, from the biometric hardware and the authentication result,
 * whether to hide the sheet and go to the Home tab with a balance refresh.
 */
module AddFundsScreen {
  import opened Wrappers
  import opened JsString
  import opened Radix

  /** `Number.MAX_SAFE_INTEGER`, 2^53 - 1: the integers `parseInt` returns exactly. */
  const MAX_SAFE_INTEGER: nat := 9_007_199_254_740_991

  /** The characters `/[^\d.]/g` keeps: ASCII digits and the dot. */
  predicate IsAmountChar(c: char)
  {
    '0' <= c <= '9' || c == '.'
  }

  predicate IsAmountText(s: string)
  {
    forall i :: 0 <= i < |s| ==> IsAmountChar(s[i])
  }

  predicate IsDecimal(s: string)
  {
    forall i :: 0 <= i < |s| ==> '0' <= s[i] <= '9'
  }

  /** `s.replace(/[^\d.]/g, '')`: the digits and dots of `s`, in order. */
  function Clean(s: string): (r: string)
    ensures IsAmountText(r) && |r| <= |s|
  {
    if s == [] then []
    else (if IsAmountChar(s[0]) then [s[0]] else []) + Clean(s[1..])
  }

  /** Cleaning works piece by piece. */
  lemma {:induction false} CleanAppend(a: string, b: string)
    ensures Clean(a + b) == Clean(a) + Clean(b)
    decreases |a|
  {
    if a != [] {
      assert (a + b)[1..] == a[1..] + b;
      CleanAppend(a[1..], b);
    } else {
      assert a + b == b;
    }
  }

  /** Text made only of digits and dots is left as it is. */
  lemma {:induction false} CleanKeepsAmountText(s: string)
    requires IsAmountText(s)
    ensures Clean(s) == s
    decreases |s|
  {
    if s != [] {
      CleanKeepsAmountText(s[1..]);
    }
  }

  /** A character other than a digit or a dot is dropped wherever it stands. */
  lemma CleanDropsOther(a: string, c: char, b: string)
    requires !IsAmountChar(c)
    ensures Clean(a + [c] + b) == Clean(a + b)
  {
    CleanAppend(a + [c], b);
    CleanAppend(a, [c]);
    CleanAppend(a, b);
    assert Clean([c]) == [];
  }

  /** The input filter is idempotent: filtering the stored amount again changes nothing. */
  lemma CleanIdempotent(s: string)
    ensures Clean(Clean(s)) == Clean(s)
  {
    CleanKeepsAmountText(Clean(s));
  }

  /** The filtered text is empty exactly when the input has no digit and no dot. */
  lemma {:induction false} CleanEmptyIff(s: string)
    ensures Clean(s) == [] <==> forall i :: 0 <= i < |s| ==> !IsAmountChar(s[i])
    decreases |s|
  {
    if s != [] {
      CleanEmptyIff(s[1..]);
      assert forall i :: 1 <= i < |s| ==> s[i] == s[1..][i - 1];
    }
  }

  /** Commas stand exactly at the positions a multiple of four from the end; all else is digits. */
  predicate IsGroupedLayout(r: string)
  {
    forall i :: 0 <= i < |r| ==>
      (r[i] == ',' <==> (|r| - i) % 4 == 0) && (r[i] == ',' || '0' <= r[i] <= '9')
  }

  /** Appending a comma and three digits to a grouped string keeps it grouped. */
  lemma GroupedLayoutStep(g: string, tail: string)
    requires IsGroupedLayout(g) && |tail| == 3 && IsDecimal(tail)
    ensures IsGroupedLayout(g + [','] + tail)
  {
    var r := g + [','] + tail;
    forall i | 0 <= i < |r|
      ensures (r[i] == ',' <==> (|r| - i) % 4 == 0) && (r[i] == ',' || '0' <= r[i] <= '9')
    {
      if i < |g| {
        assert r[i] == g[i];
        assert |r| - i == (|g| - i) + 4;
      } else if i > |g| {
        assert r[i] == tail[i - |g| - 1];
      }
    }
  }

  /**
   * `toLocaleString('en-US')` on the digits of a whole number: a comma
   * before every group of three digits counted from the right. Removing the
   * commas gives the digits back, and the commas stand exactly at the
   * positions a multiple of four from the end.
   */
  function GroupThousands(d: string): (r: string)
    requires IsDecimal(d)
    ensures Clean(r) == d
    ensures IsGroupedLayout(r)
    ensures d != [] ==> |r| == |d| + (|d| - 1) / 3
    decreases |d|
  {
    if |d| <= 3 then
      CleanKeepsAmountText(d);
      d
    else
      var g := GroupThousands(d[..|d| - 3]);
      GroupStep(d, g);
      g + [','] + d[|d| - 3..]
  }

  /** One more group: a comma and the last three digits after the grouped head. */
  lemma GroupStep(d: string, g: string)
    requires IsDecimal(d) && |d| > 3
    requires Clean(g) == d[..|d| - 3] && IsGroupedLayout(g) && |g| == |d| - 3 + (|d| - 4) / 3
    ensures Clean(g + [','] + d[|d| - 3..]) == d
    ensures IsGroupedLayout(g + [','] + d[|d| - 3..])
    ensures |g + [','] + d[|d| - 3..]| == |d| + (|d| - 1) / 3
  {
    var tail := d[|d| - 3..];
    assert IsDecimal(tail) by {
      assert forall k :: 0 <= k < 3 ==> tail[k] == d[|d| - 3 + k];
    }
    GroupedLayoutStep(g, tail);
    GroupedClean(g, tail);
    assert d == d[..|d| - 3] + tail;
  }

  /** Cleaning drops the comma between a group and the next three digits. */
  lemma GroupedClean(g: string, tail: string)
    requires IsDecimal(tail)
    ensures Clean(g + [','] + tail) == Clean(g) + tail
  {
    var comma: string := [','];
    assert Clean(comma) == [] by {
      assert comma[1..] == [];
    }
    CleanAppend(g + comma, tail);
    CleanAppend(g, comma);
    assert Clean(g + comma) == Clean(g);
    DecimalText(tail);
    CleanKeepsAmountText(tail);
  }

  /** The piece of the cleaned amount before its first dot (the `int` of `split('.')`). */
  function IntegerPart(cleaned: string): (r: string)
    requires IsAmountText(cleaned)
    ensures IsDecimal(r) && AllDigitsIn(r, 10)
  {
    var parts := Split(cleaned, '.');
    assert forall i :: 0 <= i < |parts[0]| ==> parts[0][i] == cleaned[i];
    parts[0]
  }

  /**
   * `parseInt(int, 10).toLocaleString('en-US')`: "NaN" for an empty integer
   * part, otherwise the value, without leading zeros, grouped by thousands.
   */
  function FormatInteger(digits: string): (r: string)
    requires IsDecimal(digits) && AllDigitsIn(digits, 10)
    ensures r != []
  {
    if digits == [] then "NaN" else GroupThousands(ToDigits(Value(digits, 10), 10))
  }

  /**
   * `formatAmount`: "" for an input with no digit or dot; otherwise the
   * integer part formatted and, when there is a dot, a dot and the text up
   * to the next dot, as it was typed.
   */
  function FormatAmount(value: string): (r: string)
    requires Value(IntegerPart(Clean(value)), 10) <= MAX_SAFE_INTEGER
    ensures r == [] <==> Clean(value) == []
  {
    var cleaned := Clean(value);
    if cleaned == [] then []
    else
      var parts := Split(cleaned, '.');
      var intFormatted := FormatInteger(parts[0]);
      if |parts| > 1 then intFormatted + "." + parts[1] else intFormatted
  }

  /** Splitting at a dot that follows a dot-free piece yields that piece first. */
  lemma SplitAtFirstDot(i: string, rest: string)
    requires '.' !in i
    ensures Split(i + "." + rest, '.') == [i] + Split(rest, '.')
  {
    var s := i + "." + rest;
    assert s[|i|] == '.' && s[..|i|] == i && s[|i| + 1..] == rest;
    var k := IndexOf(s, '.');
    assert k >= |i| by {
      assert forall m :: 0 <= m < |i| ==> s[m] == i[m];
    }
  }

  /** Decimal digits are amount text without a dot. */
  lemma DecimalText(i: string)
    requires IsDecimal(i)
    ensures IsAmountText(i) && '.' !in i && AllDigitsIn(i, 10)
    ensures Split(i, '.') == [i]
  {
    assert forall k :: 0 <= k < |i| ==> i[k] != '.';
  }

  /** A decimal piece, a dot and amount text form amount text that splits after the piece. */
  lemma DottedAmountText(i: string, rest: string)
    requires IsDecimal(i) && IsAmountText(rest)
    ensures IsAmountText(i + "." + rest)
    ensures Split(i + "." + rest, '.') == [i] + Split(rest, '.')
  {
    DecimalText(i);
    var s := i + "." + rest;
    assert forall k :: 0 <= k < |s| ==>
      s[k] == (if k < |i| then i[k] else if k == |i| then '.' else rest[k - |i| - 1]);
    SplitAtFirstDot(i, rest);
  }

  /** With no dot the amount is just its formatted integer part. */
  lemma FormatWholeAmount(i: string)
    requires IsDecimal(i) && Value(i, 10) <= MAX_SAFE_INTEGER
    ensures Clean(i) == i && IntegerPart(i) == i
    ensures FormatAmount(i) == if i == [] then [] else FormatInteger(i)
  {
    DecimalText(i);
    CleanKeepsAmountText(i);
  }

  /** Amount text with a dot renders as the formatted first piece, a dot and the second piece. */
  lemma FormatDotted(s: string)
    requires IsAmountText(s) && '.' in s
    ensures Clean(s) == s
    ensures Value(IntegerPart(s), 10) <= MAX_SAFE_INTEGER ==>
      FormatAmount(s) == FormatInteger(Split(s, '.')[0]) + "." + Split(s, '.')[1]
  {
    CleanKeepsAmountText(s);
  }

  /** With exactly one dot the fraction is kept as typed, even when empty. */
  lemma FormatKeepsOnlyFraction(i: string, f: string)
    requires IsDecimal(i) && IsDecimal(f) && Value(i, 10) <= MAX_SAFE_INTEGER
    ensures IsAmountText(i + "." + f) && Clean(i + "." + f) == i + "." + f
    ensures IntegerPart(i + "." + f) == i
    ensures FormatAmount(i + "." + f) == FormatInteger(i) + "." + f
  {
    var s := i + "." + f;
    DecimalText(f);
    DottedAmountText(i, f);
    assert s[|i|] == '.';
    FormatDotted(s);
  }

  /** Two dotted pieces before further amount text: the pieces come first and second. */
  lemma FirstFractionLayout(i: string, f: string, rest: string)
    requires IsDecimal(i) && IsDecimal(f) && IsAmountText(rest)
    ensures IsAmountText(i + "." + f + "." + rest) && '.' in i + "." + f + "." + rest
    ensures |Split(i + "." + f + "." + rest, '.')| >= 2
    ensures Split(i + "." + f + "." + rest, '.')[0] == i && Split(i + "." + f + "." + rest, '.')[1] == f
  {
    var tail := f + "." + rest;
    DottedAmountText(f, rest);
    DottedAmountText(i, tail);
    DotAssoc(i, f, rest);
    var a := Split(tail, '.');
    var b := Split(i + "." + tail, '.');
    assert b == [i] + a && a[0] == f;
    assert b[1] == f;
    assert (i + "." + tail)[|i|] == '.';
  }

  lemma DotAssoc(i: string, f: string, rest: string)
    ensures i + "." + (f + "." + rest) == i + "." + f + "." + rest
  {
  }

  /**
   * Only the first fraction is kept, verbatim and unrounded: whatever
   * follows a second dot is dropped.
   */
  lemma FormatKeepsFirstFraction(i: string, f: string, rest: string)
    requires IsDecimal(i) && IsDecimal(f) && IsAmountText(rest) && Value(i, 10) <= MAX_SAFE_INTEGER
    ensures IntegerPart(Clean(i + "." + f + "." + rest)) == i
    ensures FormatAmount(i + "." + f + "." + rest) == FormatInteger(i) + "." + f
  {
    var s := i + "." + f + "." + rest;
    FirstFractionLayout(i, f, rest);
    FormatDotted(s);
  }

  /** An amount that starts with a dot renders its integer part as "NaN". */
  lemma FormatLeadingDot(f: string)
    requires IsDecimal(f)
    ensures IsAmountText("." + f) && IntegerPart("." + f) == []
    ensures FormatAmount("." + f) == "NaN." + f
  {
    FormatKeepsOnlyFraction([], f);
    assert [] + "." + f == "." + f;
  }

  /**
   * The integer part loses its leading zeros and is grouped by thousands:
   * removing the commas from it gives the decimal digits of its value.
   */
  lemma FormatIntegerDigits(i: string)
    requires IsDecimal(i) && AllDigitsIn(i, 10) && i != []
    ensures Clean(FormatInteger(i)) == ToDigits(Value(i, 10), 10)
    ensures IsGroupedLayout(FormatInteger(i))
  {
    var t := ToDigits(Value(i, 10), 10);
    assert IsDecimal(t) by {
      assert forall k :: 0 <= k < |t| ==> IsDigitIn(t[k], 10);
    }
  }

  /** Leading zeros of the integer part do not show. */
  lemma FormatIntegerDropsLeadingZeros(k: nat, i: string)
    requires IsDecimal(i) && i != []
    ensures IsDecimal(Repeat('0', k) + i) && AllDigitsIn(i, 10) && AllDigitsIn(Repeat('0', k) + i, 10)
    ensures FormatInteger(Repeat('0', k) + i) == FormatInteger(i)
  {
    DecimalText(i);
    ValueLeadingZeros(k, i, 10);
    DecimalConcat(Repeat('0', k), i);
  }

  lemma DecimalConcat(a: string, b: string)
    requires IsDecimal(a) && IsDecimal(b)
    ensures IsDecimal(a + b)
  {
    var c := a + b;
    forall m | 0 <= m < |c| ensures '0' <= c[m] <= '9' {
      if m >= |a| { assert c[m] == b[m - |a|]; }
    }
  }

  /** A decimal string without a leading zero is printed back unchanged. */
  lemma DecimalDigitsRoundTrip(i: string)
    requires IsDecimal(i) && AllDigitsIn(i, 10) && i != [] && (|i| == 1 || i[0] != '0')
    ensures ToDigits(Value(i, 10), 10) == i
  {
    assert IsLowerCase(i) by { assert forall k :: 0 <= k < |i| ==> '0' <= i[k] <= '9'; }
    DigitsOfValue(i, 10);
  }

  /** Cleaning keeps a dot and the amount text after it. */
  lemma CleanDotted(g: string, f: string)
    requires IsAmountText(f)
    ensures Clean(g + "." + f) == Clean(g) + "." + f
  {
    CleanAppend(g + ".", f);
    CleanAppend(g, ".");
    CleanKeepsAmountText(f);
    CleanKeepsAmountText(".");
  }

  /** The formatted integer part cleans back to digits typed without a leading zero. */
  lemma CleanFormatInteger(i: string)
    requires IsDecimal(i) && AllDigitsIn(i, 10) && i != [] && (|i| == 1 || i[0] != '0')
    ensures Clean(FormatInteger(i)) == i
  {
    DecimalDigitsRoundTrip(i);
    FormatIntegerDigits(i);
  }

  /**
   * Cleaning what the field shows gives back the stored amount, when the
   * amount has a non-empty integer part without leading zeros and at most
   * one dot.
   */
  lemma CleanFormatRoundTrip(amount: string)
    requires IsAmountText(amount) && |Split(amount, '.')| <= 2
    requires var i := Split(amount, '.')[0]; i != [] && (|i| == 1 || i[0] != '0')
    requires Value(IntegerPart(Clean(amount)), 10) <= MAX_SAFE_INTEGER
    ensures Clean(FormatAmount(amount)) == amount
  {
    CleanKeepsAmountText(amount);
    var i := IntegerPart(amount);
    CleanFormatInteger(i);
    if |Split(amount, '.')| == 2 {
      CleanFormatTwoPieces(amount);
    }
  }

  /** What follows a position in amount text is amount text. */
  lemma AmountTextSuffix(s: string, n: nat)
    requires IsAmountText(s) && n <= |s|
    ensures IsAmountText(s[n..])
  {
    assert forall k :: 0 <= k < |s| - n ==> s[n..][k] == s[n + k];
  }

  /** The round trip for an amount with exactly one dot. */
  lemma CleanFormatTwoPieces(amount: string)
    requires IsAmountText(amount) && |Split(amount, '.')| == 2
    requires Clean(amount) == amount
    requires var i := Split(amount, '.')[0]; i != [] && (|i| == 1 || i[0] != '0')
    requires Value(IntegerPart(amount), 10) <= MAX_SAFE_INTEGER
    ensures Clean(FormatAmount(amount)) == amount
  {
    var parts := Split(amount, '.');
    var i, f := parts[0], parts[1];
    assert amount == i + "." + f by {
      assert Join(parts, '.') == i + "." + Join(parts[1..], '.');
      assert parts[1..] == [f];
    }
    assert amount[|i| + 1..] == f;
    AmountTextSuffix(amount, |i| + 1);
    FormatDotted(amount);
    CleanFormatInteger(i);
    CleanDotted(FormatInteger(i), f);
  }

  /** After typing `text`, Next is enabled exactly when the text has a digit or a dot. */
  lemma NextEnabledAfterTyping(text: string)
    ensures !NextDisabled(Clean(text)) <==> exists i :: 0 <= i < |text| && IsAmountChar(text[i])
  {
    CleanEmptyIff(text);
  }

  /** The Next button is disabled while the amount is empty. */
  predicate NextDisabled(amount: string)
  {
    amount == []
  }

  /** Where `handlePaymentSuccess` navigates. */
  datatype Route = MainAppHome(shouldRefreshBalance: bool)

  /** The alert shown, whether the sheet is hidden, and where navigation goes. */
  datatype PaymentOutcome = PaymentOutcome(alert: Option<string>, hideSheet: bool, navigateTo: Option<Route>)

  const NO_HARDWARE_ALERT: string := "No hardware for authentication"
  const AUTH_FAILED_ALERT: string := "Authentication failed"

  /**
   * The decision table of `handlePaymentSuccess`, given how the hardware
   * check and the authentication prompt ended. Without biometric hardware
   * the sheet is hidden and the app goes Home asking for a balance refresh,
   * after the no-hardware alert; with hardware the same happens, without an
   * alert, only on a successful authentication, and a failed one alerts and
   * leaves the sheet up. Nothing catches a rejected call: it ends the handler
   * with no alert, the sheet up and no navigation.
   */
  function PaymentDecision(hasHardware: Result<bool>, authSucceeded: Result<bool>): (o: PaymentOutcome)
    ensures o.hideSheet <==> hasHardware == Ok(false) || (hasHardware == Ok(true) && authSucceeded == Ok(true))
    ensures o.hideSheet <==> o.navigateTo == Some(MainAppHome(true))
    ensures hasHardware == Ok(false) ==> o.alert == Some(NO_HARDWARE_ALERT)
    ensures hasHardware == Ok(true) && authSucceeded == Ok(false) ==>
      o == PaymentOutcome(Some(AUTH_FAILED_ALERT), false, None)
    ensures hasHardware.Err? || (hasHardware == Ok(true) && authSucceeded.Err?) ==>
      o == PaymentOutcome(None, false, None)
    ensures o.alert.None? <==> hasHardware.Err? || (hasHardware == Ok(true) && authSucceeded != Ok(false))
  {
    match hasHardware
    case Err(_) => PaymentOutcome(None, false, None)
    case Ok(true) =>
      (match authSucceeded
       case Ok(true) => PaymentOutcome(None, true, Some(MainAppHome(true)))
       case Ok(false) => PaymentOutcome(Some(AUTH_FAILED_ALERT), false, None)
       case Err(_) => PaymentOutcome(None, false, None))
    case Ok(false) => PaymentOutcome(Some(NO_HARDWARE_ALERT), true, Some(MainAppHome(true)))
  }

  /** The screen's state: the stored amount and whether the payment sheet is up. */
  class AddFunds {
    var amount: string
    var paySheetVisible: bool

    /** The stored amount only ever holds digits and dots. */
    ghost predicate Valid()
      reads this
    {
      IsAmountText(amount)
    }

    constructor ()
      ensures Valid() && amount == [] && !paySheetVisible
    {
      amount := [];
      paySheetVisible := false;
    }

    /** `onChangeText`: store the typed text with everything but digits and dots removed. */
    method ChangeText(text: string)
      requires Valid()
      modifies this
      ensures Valid() && amount == Clean(text)
      ensures paySheetVisible == old(paySheetVisible)
    {
      amount := Clean(text);
    }

    /** A press on Next: ignored while the button is disabled, otherwise `handleNext` shows the sheet. */
    method PressNext() returns (handled: bool)
      requires Valid()
      modifies this
      ensures Valid()
      ensures handled <==> !NextDisabled(old(amount))
      ensures paySheetVisible == if handled then true else old(paySheetVisible)
      ensures amount == old(amount)
    {
      handled := !NextDisabled(amount);
      if handled {
        paySheetVisible := true;
      }
    }

    /** The sheet's `onClose`. */
    method ClosePaySheet()
      requires Valid()
      modifies this
      ensures Valid() && !paySheetVisible && amount == old(amount)
    {
      paySheetVisible := false;
    }

    /** `handlePaymentSuccess`, with the hardware check and the authentication result as inputs. */
    method HandlePaymentSuccess(hasHardware: Result<bool>, authSucceeded: Result<bool>) returns (outcome: PaymentOutcome)
      requires Valid()
      modifies this
      ensures Valid()
      ensures outcome == PaymentDecision(hasHardware, authSucceeded)
      ensures paySheetVisible == (old(paySheetVisible) && !outcome.hideSheet)
      ensures amount == old(amount)
    {
      outcome := PaymentDecision(hasHardware, authSucceeded);
      if outcome.hideSheet {
        paySheetVisible := false;
      }
    }
  }
}
