/**
 * The keyed local store (`useLocalStore`): a record of strings with one
 * action, `update`, and a hook that reads one key with a default and returns
 * a setter bound to that key. The browser persistence layer is not modelled.
 */
module LocalStore {

  /** The store's record of string values. */
  class KeyedStore {
    var state: map<string, string>

    /** The record starts empty. */
    constructor ()
      ensures state == map[]
    {
      state := map[];
    }

    /** `update(key, value)`: `{...state, [key]: value}`. */
    method Update(key: string, value: string)
      modifies this
      ensures state == old(state)[key := value]
      ensures key in state && state[key] == value
      ensures forall k :: k != key ==> (k in state <==> k in old(state))
      ensures forall k :: k != key && k in old(state) ==> state[k] == old(state)[k]
    {
      state := state[key := value];
    }

    /** `state[storeKey] ?? defaultValue`. */
    function Read(storeKey: string, defaultValue: string): (v: string)
      reads this
      ensures storeKey in state ==> v == state[storeKey]
      ensures storeKey !in state ==> v == defaultValue
    {
      if storeKey in state then state[storeKey] else defaultValue
    }
  }

  /** The pair returned by `useLocalStore(storeKey, defaultValue)`. */
  class LocalValue {
    const store: KeyedStore
    const storeKey: string
    const defaultValue: string

    /** `useLocalStore(storeKey, defaultValue = '')`. */
    constructor (store: KeyedStore, storeKey: string, defaultValue: string := "")
      ensures this.store == store && this.storeKey == storeKey && this.defaultValue == defaultValue
    {
      this.store := store;
      this.storeKey := storeKey;
      this.defaultValue := defaultValue;
    }

    /** The hook's current value. */
    function Value(): (v: string)
      reads this, store
      ensures storeKey in store.state ==> v == store.state[storeKey]
      ensures storeKey !in store.state ==> v == defaultValue
    {
      store.Read(storeKey, defaultValue)
    }

    /** The returned setter: always writes under the hook's own key. */
    method Set(val: string)
      modifies store
      ensures store.state == old(store.state)[storeKey := val]
      ensures Value() == val
    {
      store.Update(storeKey, val);
    }
  }

  /** Updates of distinct keys commute, and an update of the same key overwrites. */
  lemma UpdatesCommute(m: map<string, string>, k1: string, v1: string, k2: string, v2: string)
    ensures k1 != k2 ==> m[k1 := v1][k2 := v2] == m[k2 := v2][k1 := v1]
    ensures k1 == k2 ==> m[k1 := v1][k2 := v2] == m[k2 := v2]
  {
  }

  /**
   * Two hooks on the same store and key see each other's writes; a hook on
   * another key is unaffected; an unset key reads as its default (`''` unless given).
   */
  method TwoHooks(a: string, b: string) returns (first: string, second: string, other: string, unset: string)
    requires a != b
    ensures first == "dark" && second == "dark" && other == "" && unset == "light"
  {
    var store := new KeyedStore();
    var h1 := new LocalValue(store, a);
    var h2 := new LocalValue(store, a);
    var h3 := new LocalValue(store, b);
    var h4 := new LocalValue(store, b, "light");
    unset := h4.Value();
    h1.Set("dark");
    first := h1.Value();
    second := h2.Value();
    other := h3.Value();
  }
}
