/** The authentication dialog: an open flag and one of three views, changed by the
    buttons each view offers and closed by a successful sign-in or sign-up. */
module AuthDialog {
  import opened Optional

  datatype View = Main | Login | Register

  /** The navigation buttons: "log in", "register", and "back". */
  datatype Click = LoginClick | RegisterClick | BackClick

  /** The buttons the component shown for a view offers: the main view offers login
      and register, each form offers back and the other form. */
  predicate Offers(v: View, c: Click) {
    match v
    case Main => c != BackClick
    case Login => c != LoginClick
    case Register => c != RegisterClick
  }

  /** The view a button leads to, wherever it is pressed. */
  function Target(c: Click): (v: View)
    ensures c == BackClick <==> v == Main
  {
    match c
    case LoginClick => Login
    case RegisterClick => Register
    case BackClick => Main
  }

  /** Every button a view offers leads somewhere else. */
  lemma OfferedClicksMove(v: View, c: Click)
    requires Offers(v, c)
    ensures Target(c) != v
  {
  }

  /** The view reached by pressing `clicks` in turn from `v`; `None` when one of them
      is not offered where it is pressed. */
  function Follow(v: View, clicks: seq<Click>): (r: Option<View>)
    decreases |clicks|
  {
    if clicks == [] then Some(v)
    else if Offers(v, clicks[0]) then Follow(Target(clicks[0]), clicks[1..])
    else None
  }

  /** Every view can be reached from every other in one click. */
  function Route(from: View, to: View): (clicks: seq<Click>)
    ensures |clicks| <= 1 && (from == to <==> clicks == [])
    ensures Follow(from, clicks) == Some(to)
  {
    if from == to then []
    else
      var c := match to case Main => BackClick case Login => LoginClick case Register => RegisterClick;
      assert [c][1..] == [];
      [c]
  }

  class Dialog {
    var isOpen: bool
    var currentView: View
    /** Whether the parent passed `onOpenChange`. */
    const hasCallback: bool
    /** The arguments of the `onOpenChange` calls so far. */
    var notified: seq<bool>
    /** How many times the router was asked to refresh. */
    var refreshes: nat

    constructor (defaultOpen: bool, hasCallback: bool)
      ensures isOpen == defaultOpen && currentView == Main
      ensures this.hasCallback == hasCallback && notified == [] && refreshes == 0
    {
      isOpen := defaultOpen;
      currentView := Main;
      this.hasCallback := hasCallback;
      notified := [];
      refreshes := 0;
    }

    /** What the dialog renders: nothing when closed, else exactly the current view. */
    function Rendered(): (r: Option<View>)
      reads this
      ensures r.None? <==> !isOpen
      ensures r.Some? ==> r.value == currentView
    {
      if isOpen then Some(currentView) else None
    }

    /** A navigation button of the rendered view. */
    method Press(c: Click)
      requires isOpen && Offers(currentView, c)
      modifies this`currentView
      ensures currentView == Target(c)
    {
      currentView := Target(c);
    }

    /** `handleOpenChange`: sets the flag and tells the parent, if it listens; the
        view is left as it was. */
    method HandleOpenChange(open: bool)
      modifies this`isOpen, this`notified
      ensures isOpen == open
      ensures notified == old(notified) + (if hasCallback then [open] else [])
    {
      isOpen := open;
      if hasCallback {
        notified := notified + [open];
      }
    }

    /** `handleAuthSuccess`, passed to every view: close, notify, refresh. */
    method HandleAuthSuccess()
      modifies this`isOpen, this`notified, this`refreshes
      ensures !isOpen && Rendered().None?
      ensures notified == old(notified) + (if hasCallback then [false] else [])
      ensures refreshes == old(refreshes) + 1
    {
      HandleOpenChange(false);
      refreshes := refreshes + 1;
    }
  }
}
