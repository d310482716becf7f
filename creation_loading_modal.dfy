/**
 * The wallet-creation modal: a phase that goes idle, authenticating,
 * escaping, created while the modal is shown, and back to idle when it is
 * hidden. The biometric prompt's result and whether `createWallet` finished
 * are inputs; the five-second minimum delay and the one-second navigation
 * delay are not modelled.
 */
module CreationLoadingModal {

  /** `LoadingPhase`: the phase is always exactly one of these four. */
  datatype Phase = Idle | Authenticating | Escaping | Created

  /** The position of a phase in the creation order. */
  function Rank(p: Phase): nat
  {
    match p
    case Idle => 0
    case Authenticating => 1
    case Escaping => 2
    case Created => 3
  }

  /** How `authenticateAsync` ended: success, a refusal, or a thrown error. */
  datatype AuthOutcome = AuthSucceeded | AuthFailed | AuthThrew

  /** What a run of the flow does besides changing the phase. */
  datatype Effect =
    | NoEffect
      /** An alert with this title, then the parent's `onClose`. */
    | CloseWithAlert(message: string)
      /** The navigation stack replaced by these routes. */
    | ResetNavigation(routes: seq<string>)

  const AUTH_FAILED_ALERT: string := "Authentication failed"
  const FLOW_ERROR_ALERT: string := "An error occurred"
  const WALLET_ROUTE: string := "Wallet"

  /**
   * The visibility effect: showing the modal while idle starts
   * authentication, hiding it resets to idle from any phase, and showing it
   * in any other phase changes nothing.
   */
  function OnVisibility(p: Phase, visible: bool): (r: Phase)
    ensures !visible ==> r == Idle
    ensures visible ==> r == (if p == Idle then Authenticating else p)
  {
    if visible && p == Idle then Authenticating
    else if !visible then Idle
    else p
  }

  datatype FlowResult = FlowResult(next: Phase, effect: Effect)

  /**
   * One run of `executeFlow` in phase `p`, given how authentication ended and
   * whether `createWallet` succeeded. Authenticating moves on to escaping only
   * on success; otherwise the modal is closed with "Authentication failed"
   * (a refusal) or "An error occurred" (a thrown error) and the phase stays.
   * Escaping moves on to created only when the wallet was created; a failure
   * closes with "An error occurred". Created resets the navigation to the
   * single Wallet route. Idle does nothing.
   */
  function Flow(p: Phase, auth: AuthOutcome, walletCreated: bool): (r: FlowResult)
    ensures Rank(r.next) == Rank(p) || Rank(r.next) == Rank(p) + 1
    ensures r.next != p <==> (p == Authenticating && auth == AuthSucceeded) || (p == Escaping && walletCreated)
    ensures r.next != p ==> r.effect == NoEffect
    ensures r.effect.CloseWithAlert? <==>
      (p == Authenticating && auth != AuthSucceeded) || (p == Escaping && !walletCreated)
    ensures r.effect.CloseWithAlert? ==>
      r.effect.message == if p == Authenticating && auth == AuthFailed then AUTH_FAILED_ALERT else FLOW_ERROR_ALERT
    ensures r.effect.ResetNavigation? <==> p == Created
    ensures r.effect.ResetNavigation? ==> r.effect.routes == [WALLET_ROUTE]
  {
    match p
    case Idle => FlowResult(Idle, NoEffect)
    case Authenticating =>
      (match auth
       case AuthSucceeded => FlowResult(Escaping, NoEffect)
       case AuthFailed => FlowResult(Authenticating, CloseWithAlert(AUTH_FAILED_ALERT))
       case AuthThrew => FlowResult(Authenticating, CloseWithAlert(FLOW_ERROR_ALERT)))
    case Escaping =>
      if walletCreated then FlowResult(Created, NoEffect)
      else FlowResult(Escaping, CloseWithAlert(FLOW_ERROR_ALERT))
    case Created => FlowResult(Created, ResetNavigation([WALLET_ROUTE]))
  }

  /** `renderContent`: the text shown in each phase; idle and authenticating show nothing. */
  function RenderContent(p: Phase): (text: string)
    ensures text == [] <==> Rank(p) < 2
    ensures p == Escaping <==> text == "Escaping the matrix..."
    ensures p == Created <==> text == "Wallet created."
  {
    match p
    case Escaping => "Escaping the matrix..."
    case Created => "Wallet created."
    case _ => ""
  }

  /** What can happen to the modal: its visibility changes, or the flow of the current phase runs. */
  datatype Event = Visibility(visible: bool) | FlowRun(auth: AuthOutcome, walletCreated: bool)

  function Step(p: Phase, e: Event): Phase
  {
    match e
    case Visibility(v) => OnVisibility(p, v)
    case FlowRun(a, w) => Flow(p, a, w).next
  }

  /** The phase after a sequence of events. */
  function Run(p: Phase, events: seq<Event>): Phase
    decreases |events|
  {
    if events == [] then p else Step(Run(p, events[..|events| - 1]), events[|events| - 1])
  }

  predicate IsHide(e: Event)
  {
    e.Visibility? && !e.visible
  }

  predicate IsAuthSuccess(e: Event)
  {
    e.FlowRun? && e.auth == AuthSucceeded
  }

  predicate IsWalletCreated(e: Event)
  {
    e.FlowRun? && e.walletCreated
  }

  /** One event either hides the modal back to idle or moves the phase at most one step forward. */
  lemma StepAdvancesAtMostOne(p: Phase, e: Event)
    ensures IsHide(e) <==> Step(p, e) == Idle && (p != Idle || e.Visibility?)
    ensures !IsHide(e) ==> Rank(Step(p, e)) == Rank(p) || Rank(Step(p, e)) == Rank(p) + 1
  {
  }

  /**
   * While the modal stays shown the phase never goes back and never skips a
   * step: after `n` events it has moved forward by at most `n`.
   */
  lemma {:induction false} RunWhileShown(p: Phase, events: seq<Event>)
    requires forall i :: 0 <= i < |events| ==> !IsHide(events[i])
    ensures Rank(p) <= Rank(Run(p, events)) <= Rank(p) + |events|
    decreases |events|
  {
    if events != [] {
      var prefix := events[..|events| - 1];
      assert forall i :: 0 <= i < |prefix| ==> prefix[i] == events[i];
      RunWhileShown(p, prefix);
      StepAdvancesAtMostOne(Run(p, prefix), events[|events| - 1]);
    }
  }

  /** The escaping phase is reached from before it only through a successful authentication. */
  lemma {:induction false} EscapingNeedsAuth(p: Phase, events: seq<Event>)
    requires Rank(p) < 2 && Rank(Run(p, events)) >= 2
    ensures exists i :: 0 <= i < |events| && IsAuthSuccess(events[i])
    decreases |events|
  {
    var n := |events| - 1;
    var prefix := events[..n];
    if Rank(Run(p, prefix)) >= 2 {
      EscapingNeedsAuth(p, prefix);
      var i :| 0 <= i < |prefix| && IsAuthSuccess(prefix[i]);
      assert prefix[i] == events[i];
    } else {
      assert IsAuthSuccess(events[n]);
    }
  }

  /**
   * The created phase is reached only when a wallet creation succeeds, and,
   * starting from before escaping, only after an earlier successful
   * authentication.
   */
  lemma {:induction false} CreatedNeedsAuthThenCreation(p: Phase, events: seq<Event>)
    requires p != Created && Run(p, events) == Created
    ensures exists j :: (0 <= j < |events| && IsWalletCreated(events[j]) &&
                         (Rank(p) < 2 ==> exists i :: 0 <= i < j && IsAuthSuccess(events[i])))
    decreases |events|
  {
    var n := |events| - 1;
    var prefix := events[..n];
    if Run(p, prefix) == Created {
      CreatedNeedsAuthThenCreation(p, prefix);
      var j :| 0 <= j < |prefix| && IsWalletCreated(prefix[j]) &&
        (Rank(p) < 2 ==> exists i :: 0 <= i < j && IsAuthSuccess(prefix[i]));
      assert prefix[j] == events[j];
      if Rank(p) < 2 {
        var i :| 0 <= i < j && IsAuthSuccess(prefix[i]);
        assert prefix[i] == events[i];
      }
    } else {
      assert Run(p, prefix) == Escaping && IsWalletCreated(events[n]);
      if Rank(p) < 2 {
        EscapingNeedsAuth(p, prefix);
        var i :| 0 <= i < |prefix| && IsAuthSuccess(prefix[i]);
        assert prefix[i] == events[i];
      }
    }
  }

  /** The modal's state: its phase, and whether the parent shows it. */
  class LoadingModal {
    var phase: Phase
    var visible: bool

    constructor ()
      ensures phase == Idle && !visible
    {
      phase := Idle;
      visible := false;
    }

    /** A new `isVisible` from the parent, and the visibility effect it triggers. */
    method SetVisible(v: bool)
      modifies this
      ensures visible == v && phase == Step(old(phase), Visibility(v))
      ensures !v ==> phase == Idle
    {
      visible := v;
      if v && phase == Idle {
        phase := Authenticating;
      } else if !v {
        phase := Idle;
      }
    }

    /**
     * `executeFlow` for the current phase, with its awaited results as
     * inputs; the effect is what it asks of the alert, the parent and the
     * navigator.
     */
    method ExecuteFlow(auth: AuthOutcome, walletCreated: bool) returns (effect: Effect)
      modifies this
      ensures FlowResult(phase, effect) == Flow(old(phase), auth, walletCreated)
      ensures phase == Step(old(phase), FlowRun(auth, walletCreated))
      ensures visible == old(visible)
    {
      effect := NoEffect;
      if phase == Authenticating {
        if auth == AuthSucceeded {
          phase := Escaping;
        } else if auth == AuthFailed {
          effect := CloseWithAlert(AUTH_FAILED_ALERT);
        } else {
          effect := CloseWithAlert(FLOW_ERROR_ALERT);
        }
      } else if phase == Escaping {
        if walletCreated {
          phase := Created;
        } else {
          effect := CloseWithAlert(FLOW_ERROR_ALERT);
        }
      } else if phase == Created {
        effect := ResetNavigation([WALLET_ROUTE]);
      }
    }
  }
}
