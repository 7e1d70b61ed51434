/**
 * The value logic of the configuration page (src/ConfigPage.jsx): the three-slot people
 * states, the single-field edit applied to the local copy, the normalisation of the
 * device address typed by the user, and the reduction of the device's `/api/state`
 * answer to exactly three slots. Rendering, `fetch`, timers and `localStorage` are not
 * modelled; the values they deliver are parameters.
 */
module ConfigPage {
  import opened Common
  import opened Text
  import opened JsValue

  /** One person object of the page state, `{ name, role, ... }`. */
  type Entry = map<string, Json>

  /** `{ name: "", role: "" }`. */
  function EmptyEntry(): (e: Entry)
    ensures e.Keys == {"name", "role"} && e["name"] == JStr("") && e["role"] == JStr("")
  {
    map["name" := JStr(""), "role" := JStr("")]
  }

  /** The initial value of both `people` and `devicePeople`: three empty slots. */
  function InitialPeople(): (p: seq<Entry>)
    ensures |p| == 3 && forall i :: 0 <= i < |p| ==> p[i] == EmptyEntry()
  {
    [EmptyEntry(), EmptyEntry(), EmptyEntry()]
  }

  // ------------------------------------------------------------------
  // updateLocal
  // ------------------------------------------------------------------

  /**
   * The state updater of `updateLocal`: a copy of the array whose entry `idx` is the old
   * entry with `field` set to `val`; nothing else differs.
   */
  function WithField(p: seq<Entry>, idx: int, field: string, val: string): (r: seq<Entry>)
    requires 0 <= idx < |p|
    ensures |r| == |p|
    ensures forall j :: 0 <= j < |p| && j != idx ==> r[j] == p[j]
    ensures r[idx].Keys == p[idx].Keys + {field} && r[idx][field] == JStr(val)
    ensures forall k :: k in p[idx] && k != field ==> r[idx][k] == p[idx][k]
  {
    p[idx := p[idx][field := JStr(val)]]
  }

  /** Typing into the same field twice keeps only the last value. */
  lemma WithFieldLastWins(p: seq<Entry>, idx: int, field: string, a: string, b: string)
    requires 0 <= idx < |p|
    ensures WithField(WithField(p, idx, field, a), idx, field, b) == WithField(p, idx, field, b)
  {
    assert p[idx][field := JStr(a)][field := JStr(b)] == p[idx][field := JStr(b)];
  }

  /** Edits of different fields, or of different slots, do not interfere: their order is irrelevant. */
  lemma WithFieldCommutes(p: seq<Entry>, i: int, f: string, a: string, j: int, g: string, b: string)
    requires 0 <= i < |p| && 0 <= j < |p| && (i != j || f != g)
    ensures WithField(WithField(p, i, f, a), j, g, b) == WithField(WithField(p, j, g, b), i, f, a)
  {
    if i == j {
      assert p[i][f := JStr(a)][g := JStr(b)] == p[i][g := JStr(b)][f := JStr(a)];
    }
  }

  // ------------------------------------------------------------------
  // normalizeBase
  // ------------------------------------------------------------------

  /** `/^https?:\/\//i`: the text begins with `http://` or `https://`, letters in any case. */
  predicate HasScheme(u: string) {
    StartsWithIgnoreCase(u, "http://") || StartsWithIgnoreCase(u, "https://")
  }

  /**
   * `normalizeBase(u)`: the trimmed address, `http://` put in front when it has no
   * scheme, and the whole run of trailing slashes removed; `""` for a missing or blank
   * address.
   */
  function NormalizeBase(u: Option<string>): (r: string)
    ensures r == [] || r[|r| - 1] != '/'
  {
    var t := Trim(u.GetOr(""));
    if t == [] then []
    else StripTrailing(Prefixed(t), '/')
  }

  /** The address that `normalizeBase` strips: the trimmed input with a scheme in front. */
  function Prefixed(t: string): string {
    if HasScheme(t) then t else "http://" + t
  }

  /** Stripping the trailing slashes of an address with a scheme stops at the scheme's colon. */
  lemma StripAfterScheme(p: string)
    requires HasScheme(p)
    ensures var r := StripTrailing(p, '/');
      StartsWithIgnoreCase(r, "http:") || StartsWithIgnoreCase(r, "https:")
  {
    var r := StripTrailing(p, '/');
    var c := if StartsWithIgnoreCase(p, "https://") then 5 else 4;
    assert LowerAscii(p[c]) == ':';
    assert p[c] != '/';
    assert |r| > c;
    assert forall i :: 0 <= i <= c ==> r[i] == p[i];
  }

  /** The result is empty exactly when there is no address or it is all whitespace. */
  lemma NormalizeBaseEmptyIff(u: Option<string>)
    ensures NormalizeBase(u) == [] <==> u.None? || AllSpace(u.value)
  {
    TrimEmptyIffAllSpace(u.GetOr(""));
    var t := Trim(u.GetOr(""));
    if t != [] {
      StripAfterScheme(Prefixed(t));
    }
  }

  /** For an address that is not blank the result begins with `http:` or `https:`: the slashes of the scheme are the most that is lost. */
  lemma NormalizeBaseKeepsScheme(u: Option<string>)
    requires u.Some? && !AllSpace(u.value)
    ensures var r := NormalizeBase(u);
      StartsWithIgnoreCase(r, "http:") || StartsWithIgnoreCase(r, "https:")
  {
    TrimEmptyIffAllSpace(u.value);
    var t := Trim(u.value);
    PrefixedHasScheme(t);
    StripAfterScheme(Prefixed(t));
    assert NormalizeBase(u) == StripTrailing(Prefixed(t), '/');
  }

  /** Whatever the address, the one that gets stripped carries a scheme. */
  lemma PrefixedHasScheme(t: string)
    ensures HasScheme(Prefixed(t))
  {
    if !HasScheme(t) {
      assert ("http://" + t)[..7] == "http://";
    }
  }

  /**
   * An address that already carries a scheme is not prefixed again: the result is the
   * trimmed address with its trailing slashes removed, so it is a prefix of it and only
   * slashes are cut. Without a scheme, the result is `http://` plus the address, stripped.
   */
  lemma NormalizeBaseNeverDoubles(u: Option<string>)
    requires u.Some?
    ensures var t := Trim(u.value); var r := NormalizeBase(u);
      HasScheme(t) ==> r == StripTrailing(t, '/') && |r| <= |t| && r == t[..|r|] &&
                       forall i :: |r| <= i < |t| ==> t[i] == '/'
    ensures var t := Trim(u.value);
      t != [] && !HasScheme(t) ==> NormalizeBase(u) == StripTrailing("http://" + t, '/')
  {
  }

  /** Putting the scheme in front leaves the last character where it was. */
  lemma PrefixedEndsLikeInput(t: string)
    requires t != []
    ensures var p := Prefixed(t); p != [] && p[|p| - 1] == t[|t| - 1]
  {
    if !HasScheme(t) {
      assert Prefixed(t) == "http://" + t;
    }
  }

  /** An address that has neither surrounding whitespace nor trailing slashes only gets its scheme. */
  lemma NormalizeBaseOfClean(host: string)
    requires host != [] && Trim(host) == host && host[|host| - 1] != '/'
    ensures NormalizeBase(Some(host)) == Prefixed(host)
  {
    var p := Prefixed(host);
    PrefixedEndsLikeInput(host);
    StripTrailingOfClean(p, [], '/');
    assert p + [] == p;
    assert NormalizeBase(Some(host)) == StripTrailing(p, '/');
  }

  /** `${base}/api/state`. */
  function StateUrl(base: string): string {
    base + "/api/state"
  }

  /** The request URL never holds a doubled slash where the base meets the path. */
  lemma StateUrlJoin(u: Option<string>)
    requires NormalizeBase(u) != []
    ensures var r := NormalizeBase(u); var url := StateUrl(r);
      url[|r|] == '/' && url[|r| - 1] != '/'
  {
  }

  // ------------------------------------------------------------------
  // The device people list of loadDeviceState
  // ------------------------------------------------------------------

  /** `p?.[key] || ""`: the value of `key` in an object, when it is truthy; `""` otherwise. */
  function FieldOr(p: Json, key: string): (v: Json)
    ensures Truthy(v) || v == JStr("")
    ensures p.JObj? && key in p.fields && Truthy(p.fields[key]) ==> v == p.fields[key]
    ensures !(p.JObj? && key in p.fields && Truthy(p.fields[key])) ==> v == JStr("")
  {
    if p.JObj? && key in p.fields && Truthy(p.fields[key]) then p.fields[key] else JStr("")
  }

  /** `({ name: p?.name || "", role: p?.role || "" })`. */
  function DeviceEntry(p: Json): (e: Entry)
    ensures e.Keys == {"name", "role"} && e["name"] == FieldOr(p, "name") && e["role"] == FieldOr(p, "role")
  {
    map["name" := FieldOr(p, "name"), "role" := FieldOr(p, "role")]
  }

  /**
   * An element becomes an empty slot exactly when neither its `name` nor its `role` is
   * truthy: `null`, a string, an object without those fields or with `""` in them.
   */
  lemma DeviceEntryEmptyIff(p: Json)
    ensures DeviceEntry(p) == EmptyEntry() <==> FieldOr(p, "name") == JStr("") && FieldOr(p, "role") == JStr("")
  {
    if DeviceEntry(p) == EmptyEntry() {
      assert DeviceEntry(p)["name"] == EmptyEntry()["name"];
      assert DeviceEntry(p)["role"] == EmptyEntry()["role"];
    }
  }

  /**
   * `(data.people || []).slice(0, 3).map(...)` followed by the padding loop. A missing or
   * falsy list counts as empty; any other value that is not an array makes `.slice` or
   * `.map` throw, which is `None` here.
   */
  method NormalizeDevicePeople(people: Option<Json>) returns (arr: Option<seq<Entry>>)
    ensures arr.None? <==> people.Some? && Truthy(people.value) && !people.value.JArr?
    ensures arr.Some? ==> |arr.value| == 3
    ensures arr.Some? && people.Some? && people.value.JArr? ==> var items := people.value.items;
      forall i :: 0 <= i < 3 && i < |items| ==> arr.value[i] == DeviceEntry(items[i])
    ensures arr.Some? ==> forall i :: 0 <= i < 3 && i >= ItemCount(people) ==> arr.value[i] == EmptyEntry()
  {
    var items: seq<Json>;
    if people.None? || !Truthy(people.value) {
      items := [];
    } else if people.value.JArr? {
      items := people.value.items;
    } else {
      return None;
    }
    var n := if |items| < 3 then |items| else 3;
    var a := seq(n, i requires 0 <= i < n => DeviceEntry(items[i]));
    while |a| < 3
      invariant n <= |a| <= 3
      invariant forall i :: 0 <= i < n ==> a[i] == DeviceEntry(items[i])
      invariant forall i :: n <= i < |a| ==> a[i] == EmptyEntry()
    {
      a := a + [EmptyEntry()];
    }
    return Some(a);
  }

  /** The number of elements the response lists: those of an array, none otherwise. */
  function ItemCount(people: Option<Json>): nat {
    if people.Some? && people.value.JArr? then |people.value.items| else 0
  }

  /** The page state the model follows: the local people copy and the device's list. */
  class ConfigPage {
    var people: seq<Entry>
    var devicePeople: seq<Entry>

    /** Both lists hold three slots. */
    predicate Valid()
      reads this
    {
      |people| == 3 && |devicePeople| == 3
    }

    constructor ()
      ensures Valid()
      ensures people == InitialPeople() && devicePeople == InitialPeople()
    {
      people := InitialPeople();
      devicePeople := InitialPeople();
    }

    /** `updateLocal(idx, field, val)`: `setPeople` with the single-field updater. */
    method UpdateLocal(idx: int, field: string, val: string)
      requires Valid() && 0 <= idx < |people|
      modifies this
      ensures Valid()
      ensures people == WithField(old(people), idx, field, val)
      ensures devicePeople == old(devicePeople)
    {
      people := WithField(people, idx, field, val);
    }

    /**
     * The success path of `loadDeviceState` once the response is parsed: the normalised
     * list replaces `devicePeople`; when normalising throws, the list stays as it was.
     */
    method LoadDevicePeople(response: Option<Json>) returns (ok: bool)
      requires Valid()
      modifies this
      ensures Valid()
      ensures people == old(people)
      ensures ok <==> !(response.Some? && Truthy(response.value) && !response.value.JArr?)
      ensures !ok ==> devicePeople == old(devicePeople)
      ensures ok && response.Some? && response.value.JArr? ==> var items := response.value.items;
        forall i :: 0 <= i < 3 && i < |items| ==> devicePeople[i] == DeviceEntry(items[i])
      ensures ok ==> forall i :: 0 <= i < 3 && i >= ItemCount(response) ==> devicePeople[i] == EmptyEntry()
      ensures ok && ItemCount(response) == 0 ==> devicePeople == InitialPeople()
    {
      var arr := NormalizeDevicePeople(response);
      if arr.Some? {
        devicePeople := arr.value;
        ok := true;
      } else {
        ok := false;
      }
    }
  }
}
