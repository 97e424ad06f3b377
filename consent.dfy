/**
 * The cookie-consent decision kept under the `cookie_consent` storage key
 * (src/lib/consent.ts). Reads are validated and never throw; writes and
 * removals swallow storage failures.
 */
module Consent {
  import opened Wrappers
  import opened Browser

  const ConsentKey := "cookie_consent"

  /** A decision the visitor can make; `ConsentState` adds `null` for "no decision". */
  datatype Decision = Granted | Denied

  type ConsentState = Option<Decision>

  function DecisionName(d: Decision): string {
    match d
    case Granted => "granted"
    case Denied => "denied"
  }

  /** `getConsentState()`: the stored decision, ignoring any other value and any storage failure. */
  function GetConsentState(storage: LocalStorage): (r: ConsentState)
    reads storage
    ensures r.Some? <==>
      storage.available && ConsentKey in storage.items && storage.items[ConsentKey] in {"granted", "denied"}
    ensures r.Some? ==> storage.items[ConsentKey] == DecisionName(r.value)
  {
    match storage.GetItem(ConsentKey)
    case Thrown => None
    case Normal(stored) =>
      if stored == Some("granted") then Some(Granted)
      else if stored == Some("denied") then Some(Denied)
      else None
  }

  /** `setConsentState(state)`: store the decision's name; a failing write is swallowed. */
  method SetConsentState(storage: LocalStorage, state: Decision)
    modifies storage
    ensures storage.available == old(storage.available) && storage.writable == old(storage.writable)
    ensures storage.items ==
      if storage.available && storage.writable then old(storage.items)[ConsentKey := DecisionName(state)]
      else old(storage.items)
    ensures storage.available && storage.writable ==> GetConsentState(storage) == Some(state)
  {
    var _ := storage.SetItem(ConsentKey, DecisionName(state));
  }

  /** `clearConsentState()`: forget the decision; a failing removal is swallowed. */
  method ClearConsentState(storage: LocalStorage)
    modifies storage
    ensures storage.available == old(storage.available) && storage.writable == old(storage.writable)
    ensures storage.items == if storage.available then old(storage.items) - {ConsentKey} else old(storage.items)
    ensures GetConsentState(storage) == None
  {
    var _ := storage.RemoveItem(ConsentKey);
  }

  /** `hasConsentDecision()`: a valid decision is stored and storage can be read. */
  function HasConsentDecision(storage: LocalStorage): (r: bool)
    reads storage
    ensures r <==>
      storage.available && ConsentKey in storage.items && storage.items[ConsentKey] in {"granted", "denied"}
  {
    GetConsentState(storage) != None
  }
}
