/**
 * The device key-value stores the mobile application writes through
 * (expo-secure-store, AsyncStorage): a map from key to string.  Whether a call
 * throws is an input of each operation.
 */
module KeyValue {
  import opened Wrappers

  class Store {
    var items: map<string, string>

    constructor()
      ensures items == map[]
    {
      items := map[];
    }

    /** `getItemAsync(key)`: the stored string, or null. */
    function GetItem(key: string): (r: Option<string>)
      reads this
      ensures r.Some? <==> key in items
      ensures r.Some? ==> r.value == items[key]
    {
      if key in items then Some(items[key]) else None
    }

    /** `setItemAsync(key, value)`; when it throws nothing is written. */
    method SetItem(key: string, value: string, fails: bool) returns (ok: bool)
      modifies this
      ensures ok == !fails
      ensures items == if fails then old(items) else old(items)[key := value]
    {
      if fails {
        return false;
      }
      items := items[key := value];
      return true;
    }

    /** `deleteItemAsync(key)`; when it throws nothing is deleted. */
    method DeleteItem(key: string, fails: bool) returns (ok: bool)
      modifies this
      ensures ok == !fails
      ensures items == if fails then old(items) else old(items) - {key}
    {
      if fails {
        return false;
      }
      items := items - {key};
      return true;
    }
  }
}
