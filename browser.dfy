/** The parts of the browser the front end touches: `localStorage` and the
  * address the page navigates to. */
module Browser {
  import opened Wrappers

  class Browser {
    /** `typeof window !== "undefined"`: false while the page is rendered on
      * the server, where `localStorage` does not exist. */
    const hasWindow: bool
    /** `localStorage`: string keys to string values. */
    var storage: map<string, string>
    /** Every `router.push(path)`, `redirect(path)` and
      * `window.location.href = path`, oldest first. */
    var navigations: seq<string>

    constructor (hasWindow: bool, storage: map<string, string>)
      ensures this.hasWindow == hasWindow && this.storage == storage && navigations == []
    {
      this.hasWindow := hasWindow;
      this.storage := storage;
      navigations := [];
    }

    /** `localStorage.setItem(key, value)`. */
    method SetItem(key: string, value: string)
      requires hasWindow
      modifies this`storage
      ensures storage == old(storage)[key := value]
    {
      storage := storage[key := value];
    }

    /** `localStorage.removeItem(key)`: removing an absent key does nothing. */
    method RemoveItem(key: string)
      requires hasWindow
      modifies this`storage
      ensures storage == old(storage) - {key}
    {
      storage := storage - {key};
    }

    method Navigate(path: string)
      modifies this`navigations
      ensures navigations == old(navigations) + [path]
    {
      navigations := navigations + [path];
    }
  }

  /** `localStorage.getItem(key)` over a snapshot of the store: None is
    * `null`. */
  function Get(storage: map<string, string>, key: string): (r: Option<string>)
    ensures r.Some? <==> key in storage
    ensures r.Some? ==> r.value == storage[key]
  {
    if key in storage then Some(storage[key]) else None
  }
}
