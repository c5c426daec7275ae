/** The persistent key-value store (MicroStorage) as the AutoWiFi component
    uses it: namespaces of typed entries, read with a default, written one
    call at a time, and cleared namespace by namespace. */
module Storage {

  datatype Option<T> = None | Some(value: T)

  /** An entry is either an integer entry or a string entry. */
  datatype Value = IntValue(i: int) | StringValue(s: string)

  type Namespace = map<string, Value>

  /** The whole persisted state, keyed by namespace, then by key. */
  type Store = map<string, Namespace>

  /** The entry stored under `key` in namespace `ns`, if any. */
  function Lookup(store: Store, ns: string, key: string): Option<Value>
  {
    if ns in store && key in store[ns] then Some(store[ns][key]) else None
  }

  /** A string read with a default: the stored string, or the default when
      the key is absent (or holds an integer entry). */
  function GetString(store: Store, ns: string, key: string, default: string): (r: string)
    ensures Lookup(store, ns, key) == None ==> r == default
    ensures r == default || Lookup(store, ns, key) == Some(StringValue(r))
    ensures Lookup(store, ns, key).Some? && Lookup(store, ns, key).value.StringValue? ==>
              r == Lookup(store, ns, key).value.s
  {
    match Lookup(store, ns, key)
    case Some(StringValue(s)) => s
    case _ => default
  }

  /** An integer read with a default. */
  function GetInt(store: Store, ns: string, key: string, default: int): (r: int)
    ensures Lookup(store, ns, key) == None ==> r == default
    ensures r == default || Lookup(store, ns, key) == Some(IntValue(r))
    ensures Lookup(store, ns, key).Some? && Lookup(store, ns, key).value.IntValue? ==>
              r == Lookup(store, ns, key).value.i
  {
    match Lookup(store, ns, key)
    case Some(IntValue(i)) => i
    case _ => default
  }

  /** One entry written; every other entry of every namespace is kept. */
  function Put(store: Store, ns: string, key: string, v: Value): (r: Store)
    ensures Lookup(r, ns, key) == Some(v)
    ensures forall n, k :: n != ns || k != key ==> Lookup(r, n, k) == Lookup(store, n, k)
    ensures r.Keys == store.Keys + {ns}
  {
    var entries := if ns in store then store[ns] else map[];
    store[ns := entries[key := v]]
  }

  function PutInt(store: Store, ns: string, key: string, value: int): (r: Store)
    ensures GetInt(r, ns, key, 0) == value
    ensures forall n, k :: n != ns || k != key ==> Lookup(r, n, k) == Lookup(store, n, k)
  {
    Put(store, ns, key, IntValue(value))
  }

  /** `getCredentials`: two string entries of one namespace, each defaulting
      to the empty string. */
  function GetPair(store: Store, ns: string, key1: string, key2: string): (r: (string, string))
    ensures Lookup(store, ns, key1) == None ==> r.0 == ""
    ensures Lookup(store, ns, key2) == None ==> r.1 == ""
    ensures r.0 == "" || Lookup(store, ns, key1) == Some(StringValue(r.0))
    ensures r.1 == "" || Lookup(store, ns, key2) == Some(StringValue(r.1))
    ensures Lookup(store, ns, key1).Some? && Lookup(store, ns, key1).value.StringValue? ==>
              r.0 == Lookup(store, ns, key1).value.s
    ensures Lookup(store, ns, key2).Some? && Lookup(store, ns, key2).value.StringValue? ==>
              r.1 == Lookup(store, ns, key2).value.s
  {
    (GetString(store, ns, key1, ""), GetString(store, ns, key2, ""))
  }

  /** `setCredentials`: one atomic write of two string entries, `key1`
      first, into namespace `ns`. Reading the pair back gives the values
      written, and nothing outside the two keys changes. */
  function PutPair(store: Store, ns: string, key1: string, val1: string, key2: string, val2: string): (r: Store)
    ensures key1 != key2 ==> GetPair(r, ns, key1, key2) == (val1, val2)
    ensures Lookup(r, ns, key2) == Some(StringValue(val2))
    ensures forall n, k :: n != ns || (k != key1 && k != key2) ==> Lookup(r, n, k) == Lookup(store, n, k)
  {
    Put(Put(store, ns, key1, StringValue(val1)), ns, key2, StringValue(val2))
  }

  /** `clear(ns...)`: every listed namespace is emptied, the rest kept. */
  function Clear(store: Store, namespaces: set<string>): (r: Store)
    ensures forall n, k :: n in namespaces ==> Lookup(r, n, k) == None
    ensures forall n, k :: n !in namespaces ==> Lookup(r, n, k) == Lookup(store, n, k)
  {
    map n | n in store && n !in namespaces :: store[n]
  }
}
