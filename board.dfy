/**
 * The per-subject board of server.js: three people slots and a map from calendar day
 * to the statuses set for that day. This module holds the values and the table updates
 * the `/people` and `/events` handlers apply; the handlers themselves live in `Server`.
 */
module Board {
  import opened Common
  import opened Text
  import opened JsValue

  datatype Person = Person(name: string, role: string)

  /** `{ name: '', role: '' }`, the content of a cleared slot. */
  const EmptyPerson := Person("", "")

  const SlotCount := 3

  /** `eventsByDate`: day string to the list of statuses set for it. */
  type Events = map<string, seq<string>>

  datatype Store = Store(people: seq<Person>, eventsByDate: Events)

  /** The store a subject gets on its first request: three empty slots, no events. */
  function NewStore(): (s: Store)
    ensures |s.people| == SlotCount && forall i :: 0 <= i < |s.people| ==> s.people[i] == EmptyPerson
    ensures s.eventsByDate == map[]
  {
    Store([EmptyPerson, EmptyPerson, EmptyPerson], map[])
  }

  predicate NoDuplicates(xs: seq<string>) {
    forall i, j :: 0 <= i < j < |xs| ==> xs[i] != xs[j]
  }

  /** Every day that is present carries a non-empty list without repeats. */
  predicate WellFormedEvents(ev: Events) {
    forall day :: day in ev ==> ev[day] != [] && NoDuplicates(ev[day])
  }

  /** What every store of the server satisfies between requests. */
  predicate WellFormed(s: Store) {
    |s.people| == SlotCount && WellFormedEvents(s.eventsByDate)
  }

  lemma NewStoreWellFormed()
    ensures WellFormed(NewStore())
  {
  }

  // ------------------------------------------------------------------
  // Store keys
  // ------------------------------------------------------------------

  /** `req.session.user?.claims?.sub || 'anon'`. */
  function SubjectKey(claims: map<string, Json>): (k: Json)
    ensures "sub" in claims && Truthy(claims["sub"]) ==> k == claims["sub"]
    ensures !("sub" in claims && Truthy(claims["sub"])) ==> k == JStr("anon")
    ensures Truthy(k)
  {
    if "sub" in claims && Truthy(claims["sub"]) then claims["sub"] else JStr("anon")
  }

  /** `process.env.BOARD_USER_SUB || 'anon'`; an unset variable is the empty string here. */
  function BoardKey(boardUserSub: string): (k: Json)
    ensures boardUserSub != "" ==> k == JStr(boardUserSub)
    ensures boardUserSub == "" ==> k == JStr("anon")
  {
    JStr(if boardUserSub != "" then boardUserSub else "anon")
  }

  /**
   * Logged-in users without a usable `sub` share the store the device reads when
   * `BOARD_USER_SUB` is unset.
   */
  lemma AnonymousUsersShareBoard(claims: map<string, Json>)
    requires "sub" !in claims
    ensures SubjectKey(claims) == BoardKey("")
  {
  }

  // ------------------------------------------------------------------
  // People slots
  // ------------------------------------------------------------------

  /** `[1, 2, 3].includes(slot)`; `None` stands for a path segment that is not a number. */
  predicate ValidSlot(slot: Option<int>) {
    slot.Some? && 1 <= slot.value <= SlotCount
  }

  /** The JSON body of `PUT /people/:slot`; `None` is a missing or null field. */
  datatype PersonBody = PersonBody(name: Option<string>, firstname: Option<string>, role: Option<string>)

  /**
   * `(incoming.name ?? incoming.firstname ?? '').trim()` and `(incoming.role ?? '').trim()`:
   * `firstname` is consulted only when `name` is missing, even when `name` is empty.
   */
  function IncomingPerson(body: PersonBody): (p: Person)
    ensures body.name.Some? ==> p.name == Trim(body.name.value)
    ensures body.name.None? && body.firstname.Some? ==> p.name == Trim(body.firstname.value)
    ensures body.name.None? && body.firstname.None? ==> p.name == ""
    ensures p.role == (if body.role.Some? then Trim(body.role.value) else "")
  {
    var name := if body.name.Some? then body.name.value else body.firstname.GetOr("");
    Person(Trim(name), Trim(body.role.GetOr("")))
  }

  /** Both stored fields carry no surrounding whitespace. */
  lemma IncomingPersonTrimmed(body: PersonBody)
    ensures var p := IncomingPerson(body); Trim(p.name) == p.name && Trim(p.role) == p.role
  {
    var name := match body.name
      case Some(n) => n
      case None => body.firstname.GetOr("");
    TrimIdempotent(name);
    TrimIdempotent(body.role.GetOr(""));
  }

  /** `store.people[slot - 1] = person`: one slot changes, the count stays three. */
  function SetSlot(s: Store, slot: int, person: Person): (r: Store)
    requires |s.people| == SlotCount && ValidSlot(Some(slot))
    ensures WellFormed(s) ==> WellFormed(r)
    ensures |r.people| == SlotCount && r.people[slot - 1] == person
    ensures forall i :: 0 <= i < SlotCount && i != slot - 1 ==> r.people[i] == s.people[i]
    ensures r.eventsByDate == s.eventsByDate
  {
    s.(people := s.people[slot - 1 := person])
  }

  /** Clearing a slot after filling it leaves the same store as clearing it directly. */
  lemma ClearOverridesPut(s: Store, slot: int, body: PersonBody)
    requires |s.people| == SlotCount && ValidSlot(Some(slot))
    ensures SetSlot(SetSlot(s, slot, IncomingPerson(body)), slot, EmptyPerson) == SetSlot(s, slot, EmptyPerson)
  {
  }

  // ------------------------------------------------------------------
  // eventsByDate
  // ------------------------------------------------------------------

  /** `store.eventsByDate[day] || []`. */
  function StatusesOn(ev: Events, day: string): seq<string> {
    if day in ev then ev[day] else []
  }

  /** `POST /events`: create the day's list if needed and push the status unless it is there. */
  function AddStatus(ev: Events, day: string, val: string): (r: Events)
    ensures r.Keys == ev.Keys + {day}
    ensures val in r[day]
    ensures forall d :: d in ev && d != day ==> r[d] == ev[d]
    ensures val in StatusesOn(ev, day) ==> r == ev
    ensures val !in StatusesOn(ev, day) ==> r[day] == StatusesOn(ev, day) + [val]
  {
    var list := StatusesOn(ev, day);
    ev[day := if val in list then list else list + [val]]
  }

  /** `arr.indexOf(val)`: the first position of `val`, or -1. */
  function IndexOf(xs: seq<string>, val: string): (i: int)
    ensures -1 <= i < |xs|
    ensures i == -1 <==> val !in xs
    ensures 0 <= i ==> xs[i] == val && val !in xs[..i]
  {
    if xs == [] then -1
    else if xs[0] == val then 0
    else
      var j := IndexOf(xs[1..], val);
      if j == -1 then -1
      else
        assert xs[..j + 1] == [xs[0]] + xs[1..][..j];
        j + 1
  }

  /** `arr.splice(idx, 1)` when `idx >= 0`. */
  function RemoveFirst(xs: seq<string>, val: string): (r: seq<string>)
    ensures val !in xs ==> r == xs
    ensures val in xs ==> multiset(r) == multiset(xs) - multiset{val} && |r| == |xs| - 1
    ensures val in xs ==> exists i :: 0 <= i <= |r| && xs == r[..i] + [val] + r[i..] && val !in r[..i]
  {
    var i := IndexOf(xs, val);
    if i < 0 then xs
    else
      assert xs == xs[..i] + [xs[i]] + xs[i + 1..];
      var r := xs[..i] + xs[i + 1..];
      assert r[..i] == xs[..i] && r[i..] == xs[i + 1..];
      r
  }

  /**
   * `DELETE /events`: remove one occurrence of the status and drop the day once its list
   * is empty.
   */
  function RemoveStatus(ev: Events, day: string, val: string): (r: Events)
    ensures r.Keys <= ev.Keys
    ensures forall d :: d in ev && d != day ==> d in r && r[d] == ev[d]
    ensures day in r ==> r[day] == RemoveFirst(ev[day], val) && r[day] != []
    ensures day !in r ==> RemoveFirst(StatusesOn(ev, day), val) == []
  {
    var arr := RemoveFirst(StatusesOn(ev, day), val);
    if |arr| == 0 then ev - {day} else ev[day := arr]
  }

  // ------------------------------------------------------------------
  // Properties of the event updates
  // ------------------------------------------------------------------

  lemma NoDuplicatesAppend(xs: seq<string>, val: string)
    requires NoDuplicates(xs) && val !in xs
    ensures NoDuplicates(xs + [val])
  {
  }

  lemma NoDuplicatesRemoveFirst(xs: seq<string>, val: string)
    requires NoDuplicates(xs)
    ensures NoDuplicates(RemoveFirst(xs, val))
    ensures val !in RemoveFirst(xs, val)
  {
    var i := IndexOf(xs, val);
    if i >= 0 {
      var r := xs[..i] + xs[i + 1..];
      forall a, b | 0 <= a < b < |r|
        ensures r[a] != r[b]
      {
        var a' := if a < i then a else a + 1;
        var b' := if b < i then b else b + 1;
        assert r[a] == xs[a'] && r[b] == xs[b'];
      }
      forall k | 0 <= k < |r|
        ensures r[k] != val
      {
        var k' := if k < i then k else k + 1;
        assert r[k] == xs[k'];
      }
    }
  }

  /** Adding keeps every list non-empty and free of repeats. */
  lemma AddStatusWellFormed(ev: Events, day: string, val: string)
    requires WellFormedEvents(ev)
    ensures WellFormedEvents(AddStatus(ev, day, val))
  {
    var list := StatusesOn(ev, day);
    if val !in list {
      NoDuplicatesAppend(list, val);
    }
  }

  /** Removing keeps every list non-empty and free of repeats: no empty list is left. */
  lemma RemoveStatusWellFormed(ev: Events, day: string, val: string)
    requires WellFormedEvents(ev)
    ensures WellFormedEvents(RemoveStatus(ev, day, val))
  {
    NoDuplicatesRemoveFirst(StatusesOn(ev, day), val);
  }

  /** Posting the same status twice changes nothing the second time. */
  lemma AddStatusIdempotent(ev: Events, day: string, val: string)
    ensures AddStatus(AddStatus(ev, day, val), day, val) == AddStatus(ev, day, val)
  {
  }

  /** After a removal on a well-formed board the status is gone from that day. */
  lemma RemoveStatusRemoves(ev: Events, day: string, val: string)
    requires WellFormedEvents(ev)
    ensures val !in StatusesOn(RemoveStatus(ev, day, val), day)
  {
    NoDuplicatesRemoveFirst(StatusesOn(ev, day), val);
  }

  lemma RemoveFirstOfAppended(list: seq<string>, val: string)
    requires val !in list
    ensures RemoveFirst(list + [val], val) == list
  {
    assert IndexOf(list + [val], val) == |list| by {
      assert (list + [val])[|list|] == val;
      assert (list + [val])[..|list|] == list;
    }
    assert (list + [val])[..|list|] == list;
  }

  /** `RemoveStatus` once the removal from the day's list is known to give `arr`. */
  lemma RemoveStatusBy(ev: Events, day: string, val: string, arr: seq<string>)
    requires RemoveFirst(StatusesOn(ev, day), val) == arr
    ensures arr == [] ==> RemoveStatus(ev, day, val) == ev - {day}
    ensures arr != [] ==> RemoveStatus(ev, day, val) == ev[day := arr]
  {
  }

  /** Proof helper for RemoveUndoesAdd: a second update of a key overrides the first. */
  lemma MapUpdateTwice(m: Events, k: string, v: seq<string>, w: seq<string>)
    ensures m[k := v][k := w] == m[k := w]
  {
  }

  /** Proof helper for RemoveUndoesAdd: writing back a key's own value changes nothing. */
  lemma MapUpdateSame(m: Events, k: string, v: seq<string>)
    requires k in m && m[k] == v
    ensures m[k := v] == m
  {
  }

  /** Proof helper for RemoveUndoesAdd: adding a fresh key and deleting it restores the map. */
  lemma MapAddRemove(m: Events, k: string, v: seq<string>)
    requires k !in m
    ensures m[k := v] - {k} == m
  {
  }

  /** Removing what was just added, when it was not there before, restores the board. */
  lemma RemoveUndoesAdd(ev: Events, day: string, val: string)
    requires day in ev ==> ev[day] != []
    requires val !in StatusesOn(ev, day)
    ensures RemoveStatus(AddStatus(ev, day, val), day, val) == ev
  {
    var list := StatusesOn(ev, day);
    var added := ev[day := list + [val]];
    assert AddStatus(ev, day, val) == added;
    assert StatusesOn(added, day) == list + [val];
    RemoveFirstOfAppended(list, val);
    RemoveStatusBy(added, day, val, list);
    if day in ev {
      MapUpdateTwice(ev, day, list + [val], list);
      MapUpdateSame(ev, day, list);
    } else {
      MapAddRemove(ev, day, list + [val]);
    }
  }
}
