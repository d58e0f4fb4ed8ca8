/**
 * The in-memory notification list (src/services/notificationService.js): records with
 * numeric ids handed out by a counter, and the listeners notified on every change.
 * Auto-removal timers and the listener calls themselves are not modelled; ids and
 * the clock come in as parameters.
 */
module Notifications {
  import opened Wrappers
  import opened Seqs

  /** A stored notification; `extra` holds any other properties the caller passed. */
  datatype Note = Note(
    id: int, timestamp: int, kind: Option<string>, message: Option<string>, duration: Option<int>,
    extra: map<string, string>)

  /** The object passed to `add`: each present property overrides the generated one. */
  datatype NoteData = NoteData(
    id: Option<int>, timestamp: Option<int>, kind: Option<string>, message: Option<string>,
    duration: Option<int>, extra: map<string, string>)

  const NO_OPTIONS := NoteData(None, None, None, None, None, map[])

  /** `listeners` are named by numbers; the same listener may be subscribed twice. */
  datatype Service = Service(notes: seq<Note>, listeners: seq<nat>, nextId: int)

  const INITIAL := Service([], [], 1)

  /**
   * `add(notification)`: the counter always advances; the record takes the counter's
   * value as id unless the caller supplied one, and is appended. Returns the record's id.
   */
  function Add(s: Service, data: NoteData, now: int): (r: (Service, int))
    ensures r.0.nextId == s.nextId + 1
    ensures r.0.listeners == s.listeners
    ensures |r.0.notes| == |s.notes| + 1 && r.0.notes[..|s.notes|] == s.notes
    ensures r.1 == r.0.notes[|s.notes|].id == data.id.GetOr(s.nextId)
    ensures var n := r.0.notes[|s.notes|];
      && n.timestamp == data.timestamp.GetOr(now) && n.kind == data.kind && n.message == data.message
      && n.duration == data.duration && n.extra == data.extra
  {
    var note := Note(data.id.GetOr(s.nextId), data.timestamp.GetOr(now), data.kind, data.message,
      data.duration, data.extra);
    (Service(s.notes + [note], s.listeners, s.nextId + 1), note.id)
  }

  /** `remove(id)`: exactly the records with that id go; the rest keep their order. */
  function Remove(s: Service, id: int): (r: Service)
    ensures r.listeners == s.listeners && r.nextId == s.nextId
    ensures forall i :: 0 <= i < |r.notes| ==> r.notes[i].id != id && r.notes[i] in s.notes
    ensures forall i :: 0 <= i < |s.notes| && s.notes[i].id != id ==> s.notes[i] in r.notes
    ensures forall n :: multiset(r.notes)[n] == if n.id != id then multiset(s.notes)[n] else 0
  {
    FilterMultiset(s.notes, Other(id));
    s.(notes := Filter(s.notes, Other(id)))
  }

  /** Removal works piecewise on the list, so the records that stay keep their relative order. */
  lemma RemoveAppend(a: seq<Note>, b: seq<Note>, id: int, listeners: seq<nat>, nextId: int)
    ensures Remove(Service(a + b, listeners, nextId), id).notes ==
      Remove(Service(a, listeners, nextId), id).notes + Remove(Service(b, listeners, nextId), id).notes
  {
    FilterAppend(a, b, Other(id));
  }

  /** The test `remove` filters by. */
  function Other(id: int): Note -> bool {
    (n: Note) => n.id != id
  }

  /** `clear()` */
  function Clear(s: Service): (r: Service)
    ensures r.notes == [] && r.listeners == s.listeners && r.nextId == s.nextId
  {
    s.(notes := [])
  }

  /** `getAll()`: a copy, equal to the list. */
  function GetAll(s: Service): (r: seq<Note>)
    ensures |r| == |s.notes| && forall i :: 0 <= i < |r| ==> r[i] == s.notes[i]
  {
    s.notes[..]
  }

  /** `subscribe(listener)` appends the listener. */
  function Subscribe(s: Service, listener: nat): (r: Service)
    ensures r.listeners == s.listeners + [listener]
    ensures r.notes == s.notes && r.nextId == s.nextId
  {
    s.(listeners := s.listeners + [listener])
  }

  /** The function `subscribe` returns: every occurrence of that listener goes. */
  function Unsubscribe(s: Service, listener: nat): (r: Service)
    ensures forall i :: 0 <= i < |r.listeners| ==> r.listeners[i] != listener && r.listeners[i] in s.listeners
    ensures forall i :: 0 <= i < |s.listeners| && s.listeners[i] != listener ==> s.listeners[i] in r.listeners
    ensures forall l :: multiset(r.listeners)[l] == if l != listener then multiset(s.listeners)[l] else 0
    ensures r.notes == s.notes && r.nextId == s.nextId
  {
    var keep := (l: nat) => l != listener;
    FilterMultiset(s.listeners, keep);
    s.(listeners := Filter(s.listeners, keep))
  }

  /** Unsubscribing right after subscribing a new listener restores the listener list. */
  lemma SubscribeThenUnsubscribe(s: Service, listener: nat)
    requires listener !in s.listeners
    ensures Unsubscribe(Subscribe(s, listener), listener) == s
  {
    var p := (l: nat) => l != listener;
    FilterAppend(s.listeners, [listener], p);
    FilterKeepsAll(s.listeners, p);
    assert Filter([listener], p) == [];
  }

  // ---------------------------------------------------------------------------
  // Convenience wrappers
  // ---------------------------------------------------------------------------

  /** `{ type, message, ...defaults, ...options }`: the options override every default. */
  function WithDefaults(kind: string, message: string, duration: Option<int>, options: NoteData): (d: NoteData)
    ensures d.kind == Some(options.kind.GetOr(kind)) && d.message == Some(options.message.GetOr(message))
    ensures d.duration == (if options.duration.Some? then options.duration else duration)
    ensures d.id == options.id && d.timestamp == options.timestamp && d.extra == options.extra
  {
    NoteData(options.id, options.timestamp, Some(options.kind.GetOr(kind)), Some(options.message.GetOr(message)),
      if options.duration.Some? then options.duration else duration, options.extra)
  }

  /** The four convenience methods `success`, `error`, `warning` and `info`. */
  datatype Shortcut = SuccessNote | ErrorNote | WarningNote | InfoNote

  /** The `type` each shortcut writes. */
  function KindName(k: Shortcut): string {
    match k
    case SuccessNote => "success"
    case ErrorNote => "error"
    case WarningNote => "warning"
    case InfoNote => "info"
  }

  /** Only `error` sets a default `duration`: 0, so that errors stay until removed. */
  function DefaultDuration(k: Shortcut): Option<int> {
    if k.ErrorNote? then Some(0) else None
  }

  /**
   * `success`, `error`, `warning` and `info(message, options)`: `add` of the shortcut's
   * type and the message, overridden by whatever the options carry. The caller gets
   * back the id of the one record appended after the others.
   */
  function Notify(s: Service, k: Shortcut, message: string, options: NoteData, now: int): (r: (Service, int))
    ensures r.0.listeners == s.listeners && r.0.nextId == s.nextId + 1
    ensures |r.0.notes| == |s.notes| + 1 && r.0.notes[..|s.notes|] == s.notes
    ensures var n := r.0.notes[|s.notes|];
      && n.id == r.1 == options.id.GetOr(s.nextId)
      && n.kind == Some(options.kind.GetOr(KindName(k)))
      && n.message == Some(options.message.GetOr(message))
      && n.timestamp == options.timestamp.GetOr(now)
      && n.extra == options.extra
    ensures k.ErrorNote? ==> r.0.notes[|s.notes|].duration == Some(options.duration.GetOr(0))
    ensures !k.ErrorNote? ==> r.0.notes[|s.notes|].duration == options.duration
  {
    Add(s, WithDefaults(KindName(k), message, DefaultDuration(k), options), now)
  }

  /**
   * Round trip: with ordered ids, removing the record `add` just appended under a
   * fresh id gives back the list as it was.
   */
  lemma AddThenRemove(s: Service, data: NoteData, now: int)
    requires IdsOrdered(s) && data.id.None?
    ensures var (s', id) := Add(s, data, now);
      Remove(s', id) == s.(nextId := s.nextId + 1)
  {
    var (s', id) := Add(s, data, now);
    assert s'.notes == s.notes + [s'.notes[|s.notes|]];
    FilterAppend(s.notes, [s'.notes[|s.notes|]], Other(id));
    FilterKeepsAll(s.notes, Other(id));
    assert Filter([s'.notes[|s.notes|]], Other(id)) == [];
  }

  /** Dismissing a shortcut's notification by the id it returned restores the list. */
  lemma NotifyThenRemove(s: Service, k: Shortcut, message: string, options: NoteData, now: int)
    requires IdsOrdered(s) && options.id.None?
    ensures var (s', id) := Notify(s, k, message, options, now);
      Remove(s', id).notes == s.notes && IdsOrdered(s')
  {
    var data := WithDefaults(KindName(k), message, DefaultDuration(k), options);
    AddThenRemove(s, data, now);
    AddKeepsOrder(s, data, now);
  }

  // ---------------------------------------------------------------------------
  // Id order
  // ---------------------------------------------------------------------------

  /** Ids strictly increase along the list. */
  predicate Increasing(notes: seq<Note>) {
    forall i, j :: 0 <= i < j < |notes| ==> notes[i].id < notes[j].id
  }

  /** Every id in the list is above `bound`. */
  predicate Above(notes: seq<Note>, bound: int) {
    forall i :: 0 <= i < |notes| ==> bound < notes[i].id
  }

  /** Ids strictly increase along the list and stay below the counter. */
  predicate IdsOrdered(s: Service) {
    && Increasing(s.notes)
    && (forall i :: 0 <= i < |s.notes| ==> s.notes[i].id < s.nextId)
  }

  lemma InitialOrdered()
    ensures IdsOrdered(INITIAL)
  {
  }

  /** Adding without an explicit id keeps the ids ordered. */
  lemma AddKeepsOrder(s: Service, data: NoteData, now: int)
    requires IdsOrdered(s) && data.id.None?
    ensures IdsOrdered(Add(s, data, now).0)
  {
    var r := Add(s, data, now).0;
    forall i, j | 0 <= i < j < |r.notes| ensures r.notes[i].id < r.notes[j].id {
      assert r.notes[i] == s.notes[i];
      if j < |s.notes| {
        assert r.notes[j] == s.notes[j];
      }
    }
  }

  /** A caller-supplied id can break the order: here an id of 0 after the first record. */
  lemma ExplicitIdBreaksOrder()
    ensures var s1 := Add(INITIAL, NO_OPTIONS, 0).0;
      var s2 := Add(s1, NO_OPTIONS.(id := Some(0)), 0).0;
      !IdsOrdered(s2)
  {
    var s1 := Add(INITIAL, NO_OPTIONS, 0).0;
    var s2 := Add(s1, NO_OPTIONS.(id := Some(0)), 0).0;
    assert s2.notes[0].id == 1 && s2.notes[1].id == 0;
  }

  /** Filtering keeps every id above a bound above the bound. */
  lemma FilterAbove(notes: seq<Note>, p: Note -> bool, bound: int)
    requires Above(notes, bound)
    ensures Above(Filter(notes, p), bound)
  {
    var r := Filter(notes, p);
    forall k | 0 <= k < |r| ensures bound < r[k].id {
      var m :| 0 <= m < |notes| && notes[m] == r[k];
    }
  }

  /** A record below an increasing list of records above it stays increasing. */
  lemma ConsIncreasing(n: Note, rest: seq<Note>)
    requires Increasing(rest) && Above(rest, n.id)
    ensures Increasing([n] + rest)
  {
    var r := [n] + rest;
    forall i, j | 0 <= i < j < |r| ensures r[i].id < r[j].id {
      assert r[j] == rest[j - 1];
      if i > 0 {
        assert r[i] == rest[i - 1];
      }
    }
  }

  /** Filtering a list whose ids increase keeps them increasing. */
  lemma {:induction false} FilterKeepsOrder(notes: seq<Note>, p: Note -> bool)
    requires Increasing(notes)
    ensures Increasing(Filter(notes, p))
  {
    if notes != [] {
      var tail := notes[1..];
      assert Increasing(tail) by {
        forall i, j | 0 <= i < j < |tail| ensures tail[i].id < tail[j].id {
          assert tail[i] == notes[i + 1] && tail[j] == notes[j + 1];
        }
      }
      assert Above(tail, notes[0].id) by {
        forall i | 0 <= i < |tail| ensures notes[0].id < tail[i].id {
          assert tail[i] == notes[i + 1];
        }
      }
      FilterKeepsOrder(tail, p);
      FilterAbove(tail, p, notes[0].id);
      if p(notes[0]) {
        ConsIncreasing(notes[0], Filter(tail, p));
        assert Filter(notes, p) == [notes[0]] + Filter(tail, p);
      } else {
        assert Filter(notes, p) == Filter(tail, p);
      }
    }
  }

  /** Removing keeps the ids ordered. */
  lemma RemoveKeepsOrder(s: Service, id: int)
    requires IdsOrdered(s)
    ensures IdsOrdered(Remove(s, id))
  {
    FilterKeepsOrder(s.notes, Other(id));
    var r := Remove(s, id);
    forall k | 0 <= k < |r.notes| ensures r.notes[k].id < r.nextId {
      var m :| 0 <= m < |s.notes| && s.notes[m] == r.notes[k];
    }
  }

  /** With ordered ids, `add` hands out an id no stored record has. */
  lemma AddedIdIsFresh(s: Service, data: NoteData, now: int)
    requires IdsOrdered(s) && data.id.None?
    ensures forall i :: 0 <= i < |s.notes| ==> s.notes[i].id != Add(s, data, now).1
  {
  }
}
