/**
 * The tracking-consent flag kept under the `tracking-consent` storage key
 * (src/lib/consent-storage.ts). Without a `window` (server-side rendering)
 * every operation does nothing; storage failures are NOT caught here and
 * propagate to the caller, which the model shows as a `Thrown` completion.
 */
module ConsentStorage {
  import opened Wrappers
  import opened Browser

  const TrackingConsentKey := "tracking-consent"

  /** `String(accepted)`. */
  function BoolString(b: bool): string {
    if b then "true" else "false"
  }

  /** The storage objects reachable from `win` (none when there is no window). */
  function Footprint(win: BrowserWindow?): set<object> {
    if win == null then {} else {win, win.localStorage}
  }

  /** `getConsent()`: null with no window or no key, otherwise whether the stored string is exactly "true". */
  function GetConsent(win: BrowserWindow?): (r: Completion<Option<bool>>)
    reads Footprint(win)
    ensures win == null ==> r == Normal(None)
    ensures win != null ==> (r.Thrown? <==> !win.localStorage.available)
    ensures win != null && r.Normal? ==>
      (r.value.Some? <==> TrackingConsentKey in win.localStorage.items)
    ensures win != null && r.Normal? && r.value.Some? ==>
      (r.value.value <==> win.localStorage.items[TrackingConsentKey] == "true")
  {
    if win == null then Normal(None)
    else
      match win.localStorage.GetItem(TrackingConsentKey)
      case Thrown => Thrown
      case Normal(stored) =>
        if stored == None then Normal(None) else Normal(Some(stored.value == "true"))
  }

  /** `emitConsentChange(accepted)`: dispatch one `consentChange` event, when there is a window. */
  method EmitConsentChange(win: BrowserWindow?, accepted: bool)
    modifies if win == null then {} else {win}
    ensures win != null ==> win.dispatched == old(win.dispatched) + [ConsentChange(accepted)]
  {
    if win == null {
      return;
    }
    win.DispatchEvent(ConsentChange(accepted));
  }

  /**
   * `setConsent(accepted)`: store `String(accepted)`, then announce the change.
   * If the write throws (storage unavailable or full), nothing is stored and no
   * event is dispatched.
   */
  method SetConsent(win: BrowserWindow?, accepted: bool) returns (r: Completion<()>)
    modifies Footprint(win)
    ensures win == null ==> r.Normal?
    ensures win != null ==>
      && win.localStorage.available == old(win.localStorage.available)
      && win.localStorage.writable == old(win.localStorage.writable)
      && (r.Thrown? <==> !(win.localStorage.available && win.localStorage.writable))
      && win.localStorage.items ==
           (if r.Normal? then old(win.localStorage.items)[TrackingConsentKey := BoolString(accepted)]
            else old(win.localStorage.items))
      && win.dispatched == old(win.dispatched) + (if r.Normal? then [ConsentChange(accepted)] else [])
    ensures win != null && r.Normal? ==> GetConsent(win) == Normal(Some(accepted))
  {
    if win == null {
      return Normal(());
    }
    r := win.localStorage.SetItem(TrackingConsentKey, BoolString(accepted));
    if r.Thrown? {
      return;
    }
    EmitConsentChange(win, accepted);
  }

  /** `hasConsentDecision()`: whether `getConsent()` is non-null; its exception propagates. */
  function HasConsentDecision(win: BrowserWindow?): (r: Completion<bool>)
    reads Footprint(win)
    ensures win == null ==> r == Normal(false)
    ensures win != null ==> (r.Thrown? <==> !win.localStorage.available)
    ensures win != null && r.Normal? ==> (r.value <==> TrackingConsentKey in win.localStorage.items)
  {
    match GetConsent(win)
    case Thrown => Thrown
    case Normal(c) => Normal(c != None)
  }

  /** `clearConsent()`: remove the key, after which no decision is recorded. */
  method ClearConsent(win: BrowserWindow?) returns (r: Completion<()>)
    modifies if win == null then {} else {win.localStorage}
    ensures win == null ==> r.Normal?
    ensures win != null ==>
      && win.localStorage.available == old(win.localStorage.available)
      && win.localStorage.writable == old(win.localStorage.writable)
      && (r.Thrown? <==> !win.localStorage.available)
      && win.localStorage.items ==
           (if r.Normal? then old(win.localStorage.items) - {TrackingConsentKey} else old(win.localStorage.items))
    ensures r.Normal? ==> HasConsentDecision(win) == Normal(false)
  {
    if win == null {
      return Normal(());
    }
    r := win.localStorage.RemoveItem(TrackingConsentKey);
  }
}
