/**
 * The browser objects the site's logic reads and writes: `window.localStorage`,
 * the attributes of `document.documentElement`, and the events dispatched on
 * `window`. Each is a mutable object shared by every caller, so each is a class.
 */
module Browser {
  import opened Wrappers

  /** How a JavaScript call completed: normally with a value, or by throwing. */
  datatype Completion<T> = Normal(value: T) | Thrown

  /** The events this site dispatches on `window`: `consentChange` with `detail.accepted`. */
  datatype WindowEvent = ConsentChange(accepted: bool)

  /**
   * `window.localStorage`: a string-to-string map. When `available` is false
   * (storage disabled, blocked or otherwise failing) every access throws. When
   * `writable` is false (the quota is used up) `setItem` throws
   * `QuotaExceededError` while reads and removals still work.
   */
  class LocalStorage {
    var items: map<string, string>
    var available: bool
    var writable: bool

    constructor (items: map<string, string>, available: bool, writable: bool)
      ensures this.items == items && this.available == available && this.writable == writable
    {
      this.items := items;
      this.available := available;
      this.writable := writable;
    }

    /** `getItem(key)`: the stored string, or null for a missing key. */
    function GetItem(key: string): (r: Completion<Option<string>>)
      reads this
      ensures r.Thrown? <==> !available
      ensures r.Normal? ==> (r.value.Some? <==> key in items)
      ensures r.Normal? && r.value.Some? ==> r.value.value == items[key]
    {
      if !available then Thrown
      else if key in items then Normal(Some(items[key]))
      else Normal(None)
    }

    /** `setItem(key, value)`: throws unless storage is both available and writable. */
    method SetItem(key: string, value: string) returns (r: Completion<()>)
      modifies this
      ensures available == old(available) && writable == old(writable)
      ensures r.Thrown? <==> !(available && writable)
      ensures items == if available && writable then old(items)[key := value] else old(items)
    {
      if !available || !writable {
        return Thrown;
      }
      items := items[key := value];
      return Normal(());
    }

    /** `removeItem(key)`. */
    method RemoveItem(key: string) returns (r: Completion<()>)
      modifies this
      ensures available == old(available) && writable == old(writable)
      ensures r.Thrown? <==> !available
      ensures items == if available then old(items) - {key} else old(items)
    {
      if !available {
        return Thrown;
      }
      items := items - {key};
      return Normal(());
    }
  }

  /** The attributes of `document.documentElement`. */
  class DocumentElement {
    var attributes: map<string, string>

    constructor (attributes: map<string, string>)
      ensures this.attributes == attributes
    {
      this.attributes := attributes;
    }

    /** `setAttribute(name, value)`. */
    method SetAttribute(name: string, value: string)
      modifies this
      ensures attributes == old(attributes)[name := value]
    {
      attributes := attributes[name := value];
    }
  }

  /** `window`: its storage and the log of events dispatched on it. */
  class BrowserWindow {
    const localStorage: LocalStorage
    var dispatched: seq<WindowEvent>

    constructor (localStorage: LocalStorage)
      ensures this.localStorage == localStorage && dispatched == []
    {
      this.localStorage := localStorage;
      dispatched := [];
    }

    /** `dispatchEvent(e)`. */
    method DispatchEvent(e: WindowEvent)
      modifies this
      ensures dispatched == old(dispatched) + [e]
    {
      dispatched := dispatched + [e];
    }
  }
}
