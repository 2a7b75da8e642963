/**
 * The notification store: an ordered list of notification objects. Adding
 * appends the payload's fields plus a generated `id`; removing deletes the
 * first entry with a given `id` (`findIndex` then `splice`). Each entry
 * expires by a later `removeNotification(id)`, 3 s after it was added.
 */
module Notifications {
  import opened Json

  /** A notification object: `{ ...payload, id }`. */
  type Entry = map<string, Value>

  /** The object pushed by `addNotification`: the payload's own fields, with `id` overriding any `id` of theirs. */
  function MakeEntry(payload: map<string, Value>, id: real): (e: Entry)
    ensures e.Keys == payload.Keys + {"id"}
    ensures e["id"] == Num(id)
    ensures forall k :: k in payload && k != "id" ==> e[k] == payload[k]
  {
    payload["id" := Num(id)]
  }

  /** The test `findIndex` applies: `n.id === id`. */
  predicate HasId(e: Entry, id: real): (r: bool)
    ensures r <==> "id" in e && e["id"] == Num(id)
  {
    Get(Obj(e), "id") == Num(id)
  }

  /** No entry of `s` carries `id`: an id the generator may hand out next. */
  predicate FreshId(s: seq<Entry>, id: real)
  {
    forall k :: 0 <= k < |s| ==> !HasId(s[k], id)
  }

  /** Every entry has a numeric id, and no two entries share one. */
  ghost predicate UniqueIds(s: seq<Entry>)
  {
    && (forall k :: 0 <= k < |s| ==> Get(Obj(s[k]), "id").Num?)
    && (forall i, j :: 0 <= i < j < |s| ==> Get(Obj(s[i]), "id") != Get(Obj(s[j]), "id"))
  }

  /** The list after removing the first entry with `id`, if any; the reference for `removeNotification`. */
  function RemoveFirst(s: seq<Entry>, id: real): (r: seq<Entry>)
    ensures |r| == if FreshId(s, id) then |s| else |s| - 1
  {
    if s == [] then []
    else if HasId(s[0], id) then s[1..]
    else [s[0]] + RemoveFirst(s[1..], id)
  }

  /**
   * `findIndex(n => n.id === id)`: the index of the first entry with `id`,
   * or -1 when there is none.
   */
  method FindIndex(s: seq<Entry>, id: real) returns (index: int)
    ensures -1 <= index < |s|
    ensures index == -1 <==> FreshId(s, id)
    ensures 0 <= index ==> HasId(s[index], id) && FreshId(s[..index], id)
    ensures index != -1 ==> index == FirstIndex(s, id)
  {
    index := 0;
    while index < |s|
      invariant 0 <= index <= |s|
      invariant FreshId(s[..index], id)
    {
      if HasId(s[index], id) {
        FirstIndexIsUnique(s, id, index);
        return;
      }
      index := index + 1;
    }
    assert s[..index] == s;
    index := -1;
  }

  /** Removing an id no entry carries changes nothing. */
  lemma {:induction false} RemoveAbsentIsIdentity(s: seq<Entry>, id: real)
    requires FreshId(s, id)
    ensures RemoveFirst(s, id) == s
  {
    if s != [] {
      assert FreshId(s[1..], id) by {
        forall k | 0 <= k < |s[1..]| ensures !HasId(s[1..][k], id) {
          assert s[1..][k] == s[k + 1];
        }
      }
      RemoveAbsentIsIdentity(s[1..], id);
      assert [s[0]] + s[1..] == s;
    }
  }

  /** When the first entry with `id` is at `index`, removing `id` is exactly `splice(index, 1)`. */
  lemma {:induction false} RemoveFirstIsSplice(s: seq<Entry>, id: real, index: nat)
    requires index < |s| && HasId(s[index], id) && FreshId(s[..index], id)
    ensures RemoveFirst(s, id) == s[..index] + s[index + 1..]
  {
    if index > 0 {
      assert !HasId(s[0], id) by { assert s[..index][0] == s[0]; }
      var before := s[1..][..index - 1];
      assert FreshId(before, id) by {
        forall k | 0 <= k < |before| ensures !HasId(before[k], id) {
          assert before[k] == s[..index][k + 1];
        }
      }
      RemoveFirstIsSplice(s[1..], id, index - 1);
      assert s[1..][..index - 1] == s[1..index];
      assert s[1..][index..] == s[index + 1..];
      assert [s[0]] + s[1..index] == s[..index];
    }
  }

  /** Removing one id keeps every entry that carries a different id: a late timer removes nothing else. */
  lemma {:induction false} RemoveKeepsOtherEntries(s: seq<Entry>, id: real, e: Entry)
    requires e in s && !HasId(e, id)
    ensures e in RemoveFirst(s, id)
  {
    if s[0] != e {
      RemoveKeepsOtherEntries(s[1..], id, e);
    }
  }

  /** Removal keeps ids unique. */
  lemma {:induction false} RemoveFirstKeepsUniqueIds(s: seq<Entry>, id: real)
    requires UniqueIds(s)
    ensures UniqueIds(RemoveFirst(s, id))
  {
    if FreshId(s, id) {
      RemoveAbsentIsIdentity(s, id);
    } else {
      var index := FirstIndex(s, id);
      RemoveFirstIsSplice(s, id, index);
      var r := s[..index] + s[index + 1..];
      forall i, j | 0 <= i < j < |r|
        ensures Get(Obj(r[i]), "id") != Get(Obj(r[j]), "id")
      {
        var i' := if i < index then i else i + 1;
        var j' := if j < index then j else j + 1;
        assert r[i] == s[i'] && r[j] == s[j'];
      }
      forall k | 0 <= k < |r| ensures Get(Obj(r[k]), "id").Num? {
        assert r[k] == s[if k < index then k else k + 1];
      }
    }
  }

  /** The index of the first entry carrying `id`. */
  function FirstIndex(s: seq<Entry>, id: real): (index: nat)
    requires !FreshId(s, id)
    ensures index < |s| && HasId(s[index], id) && FreshId(s[..index], id)
  {
    if HasId(s[0], id) then 0
    else
      assert !FreshId(s[1..], id) by {
        var k :| 0 <= k < |s| && HasId(s[k], id);
        assert k > 0 && s[1..][k - 1] == s[k];
      }
      var i := FirstIndex(s[1..], id);
      assert s[..i + 1] == [s[0]] + s[1..][..i];
      i + 1
  }

  /**
   * `removeNotification` in full: a no-op for an id no entry carries, and
   * otherwise the deletion of exactly the first entry with that id, the
   * others keeping their order.
   */
  lemma RemoveFirstDeletesFirstMatch(s: seq<Entry>, id: real)
    ensures FreshId(s, id) ==> RemoveFirst(s, id) == s
    ensures !FreshId(s, id) ==> RemoveFirst(s, id) == s[..FirstIndex(s, id)] + s[FirstIndex(s, id) + 1..]
  {
    if FreshId(s, id) {
      RemoveAbsentIsIdentity(s, id);
    } else {
      RemoveFirstIsSplice(s, id, FirstIndex(s, id));
    }
  }

  /** Only one index is the first to carry `id`: the one `FirstIndex` names. */
  lemma FirstIndexIsUnique(s: seq<Entry>, id: real, index: nat)
    requires index < |s| && HasId(s[index], id) && FreshId(s[..index], id)
    ensures index == FirstIndex(s, id)
  {
  }

  /** With unique ids, a manual dismissal followed by the timer's removal equals one removal. */
  lemma {:induction false} DismissThenExpire(s: seq<Entry>, id: real)
    requires UniqueIds(s)
    ensures RemoveFirst(RemoveFirst(s, id), id) == RemoveFirst(s, id)
  {
    if !FreshId(s, id) {
      var index := FirstIndex(s, id);
      RemoveFirstIsSplice(s, id, index);
      var r := s[..index] + s[index + 1..];
      forall k | 0 <= k < |r| ensures !HasId(r[k], id) {
        var k' := if k < index then k else k + 1;
        assert r[k] == s[k'] && k' != index;
        assert Get(Obj(s[k']), "id") != Get(Obj(s[index]), "id");
      }
      RemoveAbsentIsIdentity(r, id);
    } else {
      RemoveAbsentIsIdentity(s, id);
    }
  }

  /** Adding with a fresh id and then removing that id gives back the list as it was. */
  lemma {:induction false} AddThenRemoveRestores(s: seq<Entry>, payload: map<string, Value>, id: real)
    requires FreshId(s, id)
    ensures RemoveFirst(s + [MakeEntry(payload, id)], id) == s
  {
    var t := s + [MakeEntry(payload, id)];
    assert t[..|s|] == s;
    RemoveFirstIsSplice(t, id, |s|);
    assert t[|s| + 1..] == [];
  }

  /** Appending an entry with a fresh id keeps ids unique. */
  lemma AddKeepsUniqueIds(s: seq<Entry>, payload: map<string, Value>, id: real)
    requires UniqueIds(s) && FreshId(s, id)
    ensures UniqueIds(s + [MakeEntry(payload, id)])
  {
    var t := s + [MakeEntry(payload, id)];
    forall i, j | 0 <= i < j < |t| ensures Get(Obj(t[i]), "id") != Get(Obj(t[j]), "id") {
      if j == |s| {
        assert !HasId(s[i], id);
      }
    }
  }

  /** The Pinia store: the `notifications` list, changed only by `push` and `splice`. */
  class NotificationStore {
    var notifications: seq<Entry>

    ghost predicate Valid()
      reads this
    {
      UniqueIds(notifications)
    }

    constructor ()
      ensures notifications == [] && Valid()
    {
      notifications := [];
    }

    /**
     * `addNotification`: pushes `{ ...payload, id }` with the id the
     * generator produced (supplied here, fresh); the expiry timer it starts
     * is the caller's later `RemoveNotification(id)`.
     */
    method AddNotification(payload: map<string, Value>, id: real)
      requires Valid() && FreshId(notifications, id)
      modifies this
      ensures notifications == old(notifications) + [MakeEntry(payload, id)]
      ensures Valid()
    {
      AddKeepsUniqueIds(notifications, payload, id);
      notifications := notifications + [MakeEntry(payload, id)];
    }

    /** `removeNotification`: finds the first entry with `id` and splices it out; no-op when there is none. */
    method RemoveNotification(id: real)
      modifies this
      ensures notifications == RemoveFirst(old(notifications), id)
      ensures old(Valid()) ==> Valid()
    {
      var index := FindIndex(notifications, id);
      if index != -1 {
        RemoveFirstIsSplice(notifications, id, index);
        notifications := notifications[..index] + notifications[index + 1..];
      } else {
        RemoveAbsentIsIdentity(notifications, id);
      }
      if old(Valid()) {
        RemoveFirstKeepsUniqueIds(old(notifications), id);
      }
    }
  }

  /** An entry that expires untouched: added, then removed by its timer 3000 ms later; the list is as before. */
  method AddThenExpire(store: NotificationStore, payload: map<string, Value>, id: real)
    requires store.Valid() && FreshId(store.notifications, id)
    modifies store
    ensures store.notifications == old(store.notifications)
    ensures store.Valid()
  {
    store.AddNotification(payload, id);
    AddThenRemoveRestores(old(store.notifications), payload, id);
    store.RemoveNotification(id);
  }

  /** An entry dismissed by hand whose 3000 ms timer fires afterwards: the second removal is a no-op. */
  method DismissThenTimer(store: NotificationStore, id: real)
    requires store.Valid()
    modifies store
    ensures store.notifications == RemoveFirst(old(store.notifications), id)
    ensures store.Valid()
  {
    store.RemoveNotification(id);
    DismissThenExpire(old(store.notifications), id);
    store.RemoveNotification(id);
  }
}
