/**
 * The browser state the frontend reads and writes: the two localStorage keys it uses, the
 * current location's pathname, and the trail of navigations made through the Next router or by
 * assigning `window.location.href`.
 */
module Browser {
  import opened Wrappers

  /** The localStorage keys the frontend uses: "token" and "user". */
  datatype Key = TokenKey | UserKey

  function KeyName(k: Key): string {
    match k
    case TokenKey => "token"
    case UserKey => "user"
  }

  const LoginPath := "/login"

  /** A tab's state as a value. `visited` lists every navigation so far, oldest first. */
  datatype Tab = Tab(storage: map<Key, string>, pathname: string, visited: seq<string>)

  /** `localStorage.getItem(k)`: null when the key is absent. */
  function Item(t: Tab, k: Key): Option<string> {
    if k in t.storage then Some(t.storage[k]) else None
  }

  /** The tab after a navigation to `path`. */
  function NavigatedTo(t: Tab, path: string): Tab {
    t.(pathname := path, visited := t.visited + [path])
  }

  /** JavaScript truthiness of a stored value: present and not the empty string. */
  predicate Truthy(v: Option<string>) {
    v.Some? && v.value != ""
  }

  /** One browser tab. */
  class Window {
    var storage: map<Key, string>
    var pathname: string
    var visited: seq<string>

    ghost function Snapshot(): Tab
      reads this
    {
      Tab(storage, pathname, visited)
    }

    constructor (storage0: map<Key, string>, pathname0: string)
      ensures Snapshot() == Tab(storage0, pathname0, [])
    {
      storage, pathname, visited := storage0, pathname0, [];
    }

    function GetItem(k: Key): (v: Option<string>)
      reads this
      ensures v == Item(Snapshot(), k)
    {
      if k in storage then Some(storage[k]) else None
    }

    /** `localStorage.setItem(k, v)`. */
    method SetItem(k: Key, v: string)
      modifies this
      ensures Snapshot() == old(Snapshot()).(storage := old(storage)[k := v])
    {
      storage := storage[k := v];
    }

    /** `localStorage.removeItem(k)`. */
    method RemoveItem(k: Key)
      modifies this
      ensures Snapshot() == old(Snapshot()).(storage := old(storage) - {k})
    {
      storage := storage - {k};
    }

    /** `router.push(path)` or `window.location.href = path`. */
    method Navigate(path: string)
      modifies this
      ensures Snapshot() == NavigatedTo(old(Snapshot()), path)
    {
      visited := visited + [path];
      pathname := path;
    }
  }
}
