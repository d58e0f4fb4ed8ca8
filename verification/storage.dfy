/**
 * The envelope store over browser storage (src/lib/storage.js).
 *
 * Every key the store writes carries the prefix `vitech_`. A value is wrapped in an
 * envelope `{ data, timestamp, ttl, compressed, encrypted }` and serialised as JSON;
 * `ttl` holds the absolute expiry instant or `null`. The clock is a parameter, and
 * whether a value is large enough to compress is decided by the caller (`large`),
 * standing for "its JSON text is longer than 1024 characters".
 */
module Storage {
  import opened Wrappers
  import opened Text

  const PREFIX := "vitech_"
  const BACKUP_VERSION := "2.1.0"

  /**
   * A JavaScript value as far as JSON goes. Numbers are integers. `JText(v)` is a
   * string whose text is the JSON serialisation of `v`, as `compress` produces.
   */
  datatype Json =
    | Undefined
    | JNull
    | JBool(b: bool)
    | JNum(n: int)
    | JStr(s: string)
    | JText(inner: Json)
    | JArr(items: seq<Json>)
    | JObj(fields: map<string, Json>)

  /** A browser-storage entry: valid JSON text, or any other text (including the empty string). */
  datatype Entry = JsonText(value: Json) | OtherText(text: string)

  /** The whole browser storage: every key, prefixed or not. */
  type Raw = map<string, Entry>

  /** `getKey(key)` */
  function GetKey(key: string): (k: string)
    ensures StartsWith(k, PREFIX) && k[|PREFIX|..] == key
  {
    PREFIX + key
  }

  /** Distinct names never share a stored key. */
  lemma GetKeyInjective(a: string, b: string)
    ensures GetKey(a) == GetKey(b) <==> a == b
  {
    if GetKey(a) == GetKey(b) {
      assert a == GetKey(a)[|PREFIX|..];
    }
  }

  /** JavaScript truthiness. */
  predicate Truthy(v: Json) {
    match v
    case Undefined => false
    case JNull => false
    case JBool(b) => b
    case JNum(n) => n != 0
    case JStr(s) => s != ""
    case _ => true
  }

  // ---------------------------------------------------------------------------
  // JSON round trip
  // ---------------------------------------------------------------------------

  /**
   * `JSON.parse(JSON.stringify(v))` for a value held in an object: `undefined`
   * properties disappear and `undefined` array elements become `null`.
   */
  function Wire(v: Json): (r: Json)
    ensures r.Undefined? <==> v.Undefined?
    ensures v.JArr? ==> r.JArr? && |r.items| == |v.items|
    ensures v.JObj? ==> r.JObj? && r.fields.Keys == set k | k in v.fields && v.fields[k] != Undefined
    decreases v
  {
    match v
    case JArr(items) =>
      JArr(seq(|items|, i requires 0 <= i < |items| => if items[i] == Undefined then JNull else Wire(items[i])))
    case JObj(fields) =>
      JObj(map k | k in fields && fields[k] != Undefined :: Wire(fields[k]))
    case _ => v
  }

  /** A value JSON carries unchanged: no `undefined` inside an array or object. */
  predicate Plain(v: Json)
    decreases v
  {
    match v
    case JArr(items) => forall i :: 0 <= i < |items| ==> items[i] != Undefined && Plain(items[i])
    case JObj(fields) => forall k :: k in fields ==> fields[k] != Undefined && Plain(fields[k])
    case _ => true
  }

  /** A plain value survives the round trip unchanged. */
  lemma {:induction false} WirePlain(v: Json)
    requires Plain(v)
    ensures Wire(v) == v
    decreases v
  {
    match v
    case JArr(items) =>
      forall i | 0 <= i < |items| ensures Wire(v).items[i] == items[i] {
        WirePlain(items[i]);
      }
    case JObj(fields) =>
      forall k | k in fields ensures Wire(v).fields[k] == fields[k] {
        WirePlain(fields[k]);
      }
    case _ =>
  }

  /** What comes out of the round trip is plain. */
  lemma {:induction false} WireIsPlain(v: Json)
    ensures Plain(Wire(v))
    decreases v
  {
    match v
    case JArr(items) =>
      forall i | 0 <= i < |items| ensures Wire(v).items[i] != Undefined && Plain(Wire(v).items[i]) {
        if items[i] != Undefined {
          WireIsPlain(items[i]);
        }
      }
    case JObj(fields) =>
      forall k | k in Wire(v).fields ensures Wire(v).fields[k] != Undefined && Plain(Wire(v).fields[k]) {
        WireIsPlain(fields[k]);
      }
    case _ =>
  }

  /** A second round trip changes nothing. */
  lemma WireIdempotent(v: Json)
    ensures Wire(Wire(v)) == Wire(v)
  {
    WireIsPlain(v);
    WirePlain(Wire(v));
  }

  // ---------------------------------------------------------------------------
  // Envelopes
  // ---------------------------------------------------------------------------

  /** `obj.name`: a property of an object, `undefined` for anything else. */
  function Prop(v: Json, name: string): (r: Json)
    ensures v.JObj? && name in v.fields ==> r == v.fields[name]
    ensures !(v.JObj? && name in v.fields) ==> r == Undefined
  {
    if v.JObj? && name in v.fields then v.fields[name] else Undefined
  }

  /** `JSON.parse(value)` as `decompress` applies it; `None` when it throws. */
  function Decompress(v: Json): (r: Option<Json>)
    ensures v.JText? ==> r == Some(v.inner)
  {
    match v
    case JText(inner) => Some(inner)
    case JNum(_) => Some(v)
    case JBool(_) => Some(v)
    case JNull => Some(v)
    case _ => None
  }

  /** The envelope `setItem` serialises. */
  function Envelope(data: Json, now: int, ttl: Option<int>, compressed: bool): Json {
    JObj(map[
      "data" := data,
      "timestamp" := JNum(now),
      "ttl" := (if ttl.Some? && ttl.value != 0 then JNum(now + ttl.value) else JNull),
      "compressed" := JBool(compressed),
      "encrypted" := JBool(false)])
  }

  /** Why a write failed. */
  datatype StorageError = StorageError(key: Option<string>)

  /**
   * `setItem(key, value, { compress, ttl })`: the wrapped value replaces the entry.
   * With compression on, `undefined` cannot be measured and the write fails; a large
   * value is stored as its JSON text.
   */
  function SetItem(raw: Raw, key: string, value: Json, ttl: Option<int>, compress: bool, large: bool, now: int)
    : (r: Result<Raw, StorageError>)
    ensures r.Failure? <==> compress && value.Undefined?
    ensures r.Failure? ==> r.error == StorageError(Some(key))
    ensures r.Success? ==> r.value.Keys == raw.Keys + {GetKey(key)}
    ensures r.Success? ==> forall k :: k in raw && k != GetKey(key) ==> r.value[k] == raw[k]
  {
    if compress && value.Undefined? then Failure(StorageError(Some(key)))
    else
      var packed := compress && large;
      var data := if packed then JText(Wire(value)) else value;
      Success(raw[GetKey(key) := JsonText(Wire(Envelope(data, now, ttl, packed)))])
  }

  /** The entry has a numeric, non-zero expiry instant that `now` is past. */
  predicate Expired(e: Entry, now: int) {
    e.JsonText? && e.value.JObj?
    && var ttl := Prop(e.value, "ttl");
    Truthy(ttl) && ttl.JNum? && now > ttl.n
  }

  /**
   * The key holds a parsed entry that is neither `null` (reading its `ttl` would
   * throw) nor expired: `getItem` returns its `data`.
   */
  predicate Live(raw: Raw, key: string, now: int) {
    && GetKey(key) in raw && raw[GetKey(key)].JsonText?
    && !raw[GetKey(key)].value.JNull? && !raw[GetKey(key)].value.Undefined?
    && !Expired(raw[GetKey(key)], now)
  }

  /**
   * `getItem(key, defaultValue)` and what it leaves in storage. An absent, empty or
   * unreadable entry gives the default; an expired one gives the default and is
   * removed; otherwise the `data` property, decompressed when flagged.
   */
  function GetItem(raw: Raw, key: string, default: Json, now: int): (r: (Raw, Json))
    ensures GetKey(key) !in raw ==> r == (raw, default)
    ensures GetKey(key) in raw && Expired(raw[GetKey(key)], now) ==> r == (raw - {GetKey(key)}, default)
    ensures !(GetKey(key) in raw && Expired(raw[GetKey(key)], now)) ==> r.0 == raw
    ensures GetKey(key) in raw && raw[GetKey(key)].OtherText? ==> r == (raw, default)
    ensures GetKey(key) in raw && raw[GetKey(key)].JsonText? ==>
      var j := raw[GetKey(key)].value;
      && (j.JNull? || j.Undefined? ==> r == (raw, default))
      && (Live(raw, key, now) && !Truthy(Prop(j, "compressed")) ==> r == (raw, Prop(j, "data")))
      && (Live(raw, key, now) && Truthy(Prop(j, "compressed")) ==> r == (raw, Decompress(Prop(j, "data")).GetOr(default)))
  {
    var k := GetKey(key);
    if k !in raw then (raw, default)
    else match raw[k]
      case OtherText(_) => (raw, default)
      case JsonText(j) =>
        if j.JNull? || j.Undefined? then (raw, default)
        else if Expired(raw[k], now) then (raw - {k}, default)
        else
          var value := Prop(j, "data");
          if Truthy(Prop(j, "compressed")) then
            match Decompress(value)
            case None => (raw, default)
            case Some(v) => (raw, v)
          else (raw, value)
  }

  /** What `getItem` returns depends only on the key's own entry. */
  lemma GetItemReadsOneEntry(a: Raw, b: Raw, key: string, default: Json, now: int)
    requires GetKey(key) in a && GetKey(key) in b && a[GetKey(key)] == b[GetKey(key)]
    ensures GetItem(a, key, default, now).1 == GetItem(b, key, default, now).1
  {
  }

  /**
   * Reading back a write without expiry (no `ttl`, or `ttl` 0) gives the value as
   * JSON carries it, at any later time, compressed or not.
   */
  lemma {:induction false} SetThenGet(raw: Raw, key: string, value: Json, ttl: Option<int>, compress: bool, large: bool,
                                      now: int, default: Json, later: int)
    requires ttl.None? || ttl.value == 0
    requires SetItem(raw, key, value, ttl, compress, large, now).Success?
    ensures var raw' := SetItem(raw, key, value, ttl, compress, large, now).value;
      GetItem(raw', key, default, later) == (raw', Wire(value))
  {
    var packed := compress && large;
    var data := if packed then JText(Wire(value)) else value;
    var w := Wire(Envelope(data, now, ttl, packed));
    EnvelopeWire(data, now, ttl, packed);
    var raw' := SetItem(raw, key, value, ttl, compress, large, now).value;
    assert raw'[GetKey(key)] == JsonText(w);
    assert !Expired(JsonText(w), later);
    if packed {
      assert Decompress(Prop(w, "data")) == Some(Wire(value));
    } else {
      assert Prop(w, "data") == Wire(value);
    }
  }

  /** A property of a serialised object is the serialised property. */
  lemma WireProp(v: Json, name: string)
    requires v.JObj?
    ensures Prop(Wire(v), name) == Wire(Prop(v, name))
  {
    if name in v.fields && v.fields[name] != Undefined {
      assert name in Wire(v).fields;
    }
  }

  /** The serialised envelope: its `data`, `ttl` and `compressed` properties. */
  lemma EnvelopeWire(data: Json, now: int, ttl: Option<int>, packed: bool)
    ensures var w := Wire(Envelope(data, now, ttl, packed));
      && w.JObj?
      && Prop(w, "data") == Wire(data)
      && Prop(w, "compressed") == JBool(packed)
      && Prop(w, "ttl") == (if ttl.Some? && ttl.value != 0 then JNum(now + ttl.value) else JNull)
  {
    var e := Envelope(data, now, ttl, packed);
    WireProp(e, "data");
    WireProp(e, "compressed");
    WireProp(e, "ttl");
  }

  /** The entry a write with a time-to-live leaves, and when it counts as expired. */
  lemma TtlEntry(raw: Raw, key: string, value: Json, ttl: int, large: bool, now: int, later: int)
    requires ttl != 0 && now + ttl != 0 && !value.Undefined?
    ensures var raw' := SetItem(raw, key, value, Some(ttl), true, large, now).value;
      && GetKey(key) in raw'
      && (Expired(raw'[GetKey(key)], later) <==> later > now + ttl)
      && Prop(raw'[GetKey(key)].value, "data") == Wire(if large then JText(Wire(value)) else value)
      && Prop(raw'[GetKey(key)].value, "compressed") == JBool(large)
  {
    var data := if large then JText(Wire(value)) else value;
    EnvelopeWire(data, now, Some(ttl), large);
  }

  /**
   * A write with a time-to-live: still read at exactly its expiry instant, and
   * read as the default (and removed) once the clock is strictly past it. (An
   * expiry instant of 0 would be falsy and never expire.)
   */
  lemma TtlBoundary(raw: Raw, key: string, value: Json, ttl: int, large: bool, now: int,
                    default: Json, later: int)
    requires ttl != 0 && now + ttl != 0 && !value.Undefined?
    ensures var raw' := SetItem(raw, key, value, Some(ttl), true, large, now).value;
      && (later <= now + ttl ==> GetItem(raw', key, default, later) == (raw', Wire(value)))
      && (later > now + ttl ==> GetItem(raw', key, default, later) == (raw' - {GetKey(key)}, default))
  {
    TtlEntry(raw, key, value, ttl, large, now, later);
  }

  /** `removeItem(key)`: exactly that key's entry goes. */
  function RemoveItem(raw: Raw, key: string): (r: Raw)
    ensures GetKey(key) !in r
    ensures forall k :: k != GetKey(key) ==> (k in r <==> k in raw)
    ensures forall k :: k in r ==> r[k] == raw[k]
  {
    raw - {GetKey(key)}
  }

  /** `clear()`: every prefixed key goes, every other key stays. */
  function Clear(raw: Raw): (r: Raw)
    ensures forall k :: k in r <==> k in raw && !StartsWith(k, PREFIX)
    ensures forall k :: k in r ==> r[k] == raw[k]
  {
    map k | k in raw && !StartsWith(k, PREFIX) :: raw[k]
  }

  /** `hasItem(key)`: some stored key is the prefix followed by `key`, even when its entry has expired. */
  predicate HasItem(raw: Raw, key: string)
    ensures HasItem(raw, key) <==> exists k :: k in raw && StartsWith(k, PREFIX) && k[|PREFIX|..] == key
  {
    StoredUnderPrefix(raw, key);
    GetKey(key) in raw
  }

  /** The only stored key that names `key` is its prefixed form. */
  lemma StoredUnderPrefix(raw: Raw, key: string)
    ensures GetKey(key) in raw <==> exists k :: k in raw && StartsWith(k, PREFIX) && k[|PREFIX|..] == key
  {
    if exists k :: k in raw && StartsWith(k, PREFIX) && k[|PREFIX|..] == key {
      var k :| k in raw && StartsWith(k, PREFIX) && k[|PREFIX|..] == key;
      assert k == PREFIX + k[|PREFIX|..];
    }
    if GetKey(key) in raw {
      assert GetKey(key)[|PREFIX|..] == key;
    }
  }

  /**
   * `hasItem` and `getItem` disagree on an expired entry: it is reported as held
   * until a read returns the default and removes it.
   */
  lemma HasItemUntilRead(raw: Raw, key: string, default: Json, now: int)
    ensures !HasItem(raw, key) ==> GetItem(raw, key, default, now).1 == default
    ensures HasItem(raw, key) && Expired(raw[GetKey(key)], now) ==>
      GetItem(raw, key, default, now).1 == default && !HasItem(GetItem(raw, key, default, now).0, key)
  {
  }

  /** `getKeys()`: the names under which the store holds entries (the order of browser keys is not modelled). */
  function GetKeys(raw: Raw): (r: set<string>)
    ensures forall name :: name in r <==> HasItem(raw, name)
  {
    var r := set k | k in raw && StartsWith(k, PREFIX) :: k[|PREFIX|..];
    forall name ensures name in r <==> HasItem(raw, name) {
      if HasItem(raw, name) {
        assert GetKey(name)[|PREFIX|..] == name;
      }
      if name in r {
        var k :| k in raw && StartsWith(k, PREFIX) && k[|PREFIX|..] == name;
        assert k == PREFIX + k[|PREFIX|..];
      }
    }
    r
  }

  /** After `clear()` the store holds no names. */
  lemma ClearEmptiesKeys(raw: Raw)
    ensures GetKeys(Clear(raw)) == {}
  {
    forall name ensures !HasItem(Clear(raw), name) {
      assert StartsWith(GetKey(name), PREFIX);
    }
  }

  // ---------------------------------------------------------------------------
  // Watchers
  // ---------------------------------------------------------------------------

  /** The listener sets by key; a callback is named by a number. */
  type Listeners = map<string, set<nat>>

  /** Every listener set the store keeps is non-empty. */
  predicate NoEmptySets(l: Listeners) {
    forall k :: k in l ==> l[k] != {}
  }

  /** `watch(key, callback)` */
  function Watch(l: Listeners, key: string, callback: nat): (r: Listeners)
    ensures r.Keys == l.Keys + {key}
    ensures r[key] == (if key in l then l[key] else {}) + {callback}
    ensures forall k :: k in l && k != key ==> r[k] == l[k]
    ensures NoEmptySets(l) ==> NoEmptySets(r)
  {
    l[key := (if key in l then l[key] else {}) + {callback}]
  }

  /** The function `watch` returns: drop the callback, and the key once its set is empty. */
  function Unwatch(l: Listeners, key: string, callback: nat): (r: Listeners)
    ensures key !in l ==> r == l
    ensures key in l && l[key] - {callback} == {} ==> r == l - {key}
    ensures key in l && l[key] - {callback} != {} ==> r == l[key := l[key] - {callback}]
    ensures NoEmptySets(l) ==> NoEmptySets(r)
  {
    if key !in l then l
    else
      var rest := l[key] - {callback};
      if rest == {} then l - {key} else l[key := rest]
  }

  /** Unwatching a fresh callback undoes the watch. */
  lemma WatchThenUnwatch(l: Listeners, key: string, callback: nat)
    requires NoEmptySets(l)
    requires key in l ==> callback !in l[key]
    ensures Unwatch(Watch(l, key, callback), key, callback) == l
  {
    var w := Watch(l, key, callback);
    if key in l {
      assert w[key] - {callback} == l[key];
      assert l[key := l[key]] == l;
    } else {
      assert w - {key} == l;
    }
  }

  // ---------------------------------------------------------------------------
  // Backup and restore
  // ---------------------------------------------------------------------------

  datatype Backup = Backup(timestamp: int, version: string, data: map<string, Json>)

  /**
   * `backup()`: each name's current value (`null` as the default). Reading removes the
   * expired entries as a side effect.
   */
  function TakeBackup(raw: Raw, now: int): (r: (Raw, Backup))
    ensures r.1.data.Keys == GetKeys(raw)
    ensures forall name :: name in r.1.data ==> r.1.data[name] == GetItem(raw, name, JNull, now).1
    ensures r.1.version == BACKUP_VERSION && r.1.timestamp == now
    ensures forall k :: k in r.0 <==> k in raw && !(StartsWith(k, PREFIX) && Expired(raw[k], now))
    ensures forall k :: k in r.0 ==> r.0[k] == raw[k]
  {
    var names := GetKeys(raw);
    var data := map name | name in names :: GetItem(raw, name, JNull, now).1;
    var kept := map k | k in raw && !(StartsWith(k, PREFIX) && Expired(raw[k], now)) :: raw[k];
    (kept, Backup(now, BACKUP_VERSION, data))
  }

  /** The entries of a backup's `data`, in key order, as `Object.entries` lists them. */
  type Entries = seq<(string, Json)>

  /** `setItem` of each entry in turn with the default options; stops at the first failure. */
  function SetAll(raw: Raw, entries: Entries, large: Json -> bool, now: int): (r: (Raw, bool))
    ensures r.1 <==> forall i :: 0 <= i < |entries| ==> !entries[i].1.Undefined?
    ensures forall k :: !StartsWith(k, PREFIX) ==> (k in r.0 <==> k in raw) && (k in raw ==> r.0[k] == raw[k])
    decreases |entries|
  {
    if entries == [] then (raw, true)
    else
      var (key, value) := entries[0];
      match SetItem(raw, key, value, None, true, large(value), now)
      case Failure(_) => (raw, false)
      case Success(raw') =>
        var r := SetAll(raw', entries[1..], large, now);
        assert forall i :: 1 <= i < |entries| ==> entries[i] == entries[1..][i - 1];
        r
  }

  /**
   * `restore(backup)`: a backup without `data` is refused before anything changes;
   * otherwise the prefixed keys are cleared and every entry written back. A
   * `StorageError` is thrown (here: `false`) when an entry cannot be written, after
   * the clear and the writes before it.
   */
  function Restore(raw: Raw, data: Option<Entries>, large: Json -> bool, now: int): (r: (Raw, bool))
    ensures data.None? ==> r == (raw, false)
    ensures data.Some? ==> (r.1 <==> forall i :: 0 <= i < |data.value| ==> !data.value[i].1.Undefined?)
    ensures data.Some? ==> forall k :: !StartsWith(k, PREFIX) ==>
      (k in r.0 <==> k in raw) && (k in raw ==> r.0[k] == raw[k])
    ensures data.Some? && r.1 ==> forall name :: HasItem(r.0, name) <==>
      exists i :: 0 <= i < |data.value| && data.value[i].0 == name
    ensures data.Some? && r.1 && DistinctNames(data.value) ==>
      forall j, default, later :: 0 <= j < |data.value| ==>
        GetItem(r.0, data.value[j].0, default, later) == (r.0, Wire(data.value[j].1))
  {
    match data
    case None => (raw, false)
    case Some(entries) =>
      SetAllAfterClear(raw, entries, large, now);
      SetAll(Clear(raw), entries, large, now)
  }

  /** `Object.entries` lists each property once. */
  predicate DistinctNames(entries: Entries) {
    forall a, b :: 0 <= a < b < |entries| ==> entries[a].0 != entries[b].0
  }

  /** Writing entries over a cleared store: exactly their names are held, and each reads back. */
  lemma SetAllAfterClear(raw: Raw, entries: Entries, large: Json -> bool, now: int)
    ensures var r := SetAll(Clear(raw), entries, large, now);
      r.1 ==> forall name :: HasItem(r.0, name) <==> exists i :: 0 <= i < |entries| && entries[i].0 == name
    ensures var r := SetAll(Clear(raw), entries, large, now);
      r.1 && DistinctNames(entries) ==>
      forall j, default, later :: 0 <= j < |entries| ==>
        GetItem(r.0, entries[j].0, default, later) == (r.0, Wire(entries[j].1))
  {
    var r := SetAll(Clear(raw), entries, large, now);
    if r.1 {
      ClearEmptiesKeys(raw);
      SetAllKeys(Clear(raw), entries, large, now);
      forall name ensures !HasItem(Clear(raw), name) {
        assert name !in GetKeys(Clear(raw));
      }
      if DistinctNames(entries) {
        forall j, default, later | 0 <= j < |entries|
          ensures GetItem(r.0, entries[j].0, default, later) == (r.0, Wire(entries[j].1))
        {
          SetAllReadsBack(Clear(raw), entries, large, now, j, default, later);
        }
      }
    }
  }

  /** After a successful restore, exactly the restored names are held... */
  lemma {:induction false} SetAllKeys(raw: Raw, entries: Entries, large: Json -> bool, now: int)
    requires SetAll(raw, entries, large, now).1
    ensures forall name :: HasItem(SetAll(raw, entries, large, now).0, name) <==>
      HasItem(raw, name) || exists i :: 0 <= i < |entries| && entries[i].0 == name
    decreases |entries|
  {
    if entries != [] {
      SetAllStep(raw, entries, large, now);
      var (key, value) := entries[0];
      var raw' := SetItem(raw, key, value, None, true, large(value), now).value;
      SetAllKeys(raw', entries[1..], large, now);
      forall name ensures HasItem(SetAll(raw, entries, large, now).0, name) <==>
        HasItem(raw, name) || exists i :: 0 <= i < |entries| && entries[i].0 == name
      {
        GetKeyInjective(name, key);
        if exists i :: 0 <= i < |entries[1..]| && entries[1..][i].0 == name {
          var i :| 0 <= i < |entries[1..]| && entries[1..][i].0 == name;
          assert entries[i + 1].0 == name;
        }
        if exists i :: 0 <= i < |entries| && entries[i].0 == name {
          var i :| 0 <= i < |entries| && entries[i].0 == name;
          if i > 0 {
            assert entries[1..][i - 1].0 == name;
          }
        }
      }
    }
  }

  /** A successful run of writes is the first write followed by the rest. */
  lemma SetAllStep(raw: Raw, entries: Entries, large: Json -> bool, now: int)
    requires entries != [] && SetAll(raw, entries, large, now).1
    ensures SetItem(raw, entries[0].0, entries[0].1, None, true, large(entries[0].1), now).Success?
    ensures SetAll(raw, entries, large, now) ==
      SetAll(SetItem(raw, entries[0].0, entries[0].1, None, true, large(entries[0].1), now).value, entries[1..], large, now)
  {
  }

  /** ...and each reads back as its entry's value as JSON carries it, when the names are distinct. */
  lemma {:induction false} SetAllReadsBack(raw: Raw, entries: Entries, large: Json -> bool, now: int,
                                           j: nat, default: Json, later: int)
    requires SetAll(raw, entries, large, now).1
    requires j < |entries|
    requires forall a, b :: 0 <= a < b < |entries| ==> entries[a].0 != entries[b].0
    ensures var r := SetAll(raw, entries, large, now).0;
      GetItem(r, entries[j].0, default, later) == (r, Wire(entries[j].1))
    decreases |entries|
  {
    SetAllStep(raw, entries, large, now);
    var (key, value) := entries[0];
    var raw' := SetItem(raw, key, value, None, true, large(value), now).value;
    if j == 0 {
      SetThenGet(raw, key, value, None, true, large(value), now, default, later);
      SetAllFrame(raw', entries[1..], large, now, key);
      GetItemReadsOneEntry(raw', SetAll(raw, entries, large, now).0, key, default, later);
    } else {
      assert entries[j] == entries[1..][j - 1];
      SetAllReadsBack(raw', entries[1..], large, now, j - 1, default, later);
    }
  }

  /** Writing other names leaves a name's entry as it was. */
  lemma {:induction false} SetAllFrame(raw: Raw, entries: Entries, large: Json -> bool, now: int, name: string)
    requires forall i :: 0 <= i < |entries| ==> entries[i].0 != name
    ensures var r := SetAll(raw, entries, large, now).0;
      (GetKey(name) in r <==> GetKey(name) in raw) && (GetKey(name) in raw ==> r[GetKey(name)] == raw[GetKey(name)])
    decreases |entries|
  {
    if entries != [] {
      var (key, value) := entries[0];
      GetKeyInjective(name, key);
      match SetItem(raw, key, value, None, true, large(value), now)
      case Failure(_) =>
      case Success(raw') =>
        assert forall i :: 0 <= i < |entries[1..]| ==> entries[1..][i] == entries[i + 1];
        SetAllFrame(raw', entries[1..], large, now, name);
    }
  }

  /** A restore of a backup whose values are all defined brings every value back. */
  lemma RestoreReadsBack(raw: Raw, entries: Entries, large: Json -> bool, now: int, j: nat,
                         default: Json, later: int)
    requires j < |entries|
    requires forall i :: 0 <= i < |entries| ==> !entries[i].1.Undefined?
    requires forall a, b :: 0 <= a < b < |entries| ==> entries[a].0 != entries[b].0
    ensures Restore(raw, Some(entries), large, now).1
    ensures var r := Restore(raw, Some(entries), large, now).0;
      GetItem(r, entries[j].0, default, later) == (r, Wire(entries[j].1))
  {
    SetAllReadsBack(Clear(raw), entries, large, now, j, default, later);
  }
}
