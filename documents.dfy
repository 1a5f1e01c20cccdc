/**
 * JavaScript values as they are stored in the document collections: a
 * document is a map from field name to value, and a collection is a map
 * from ObjectId to document. JavaScript truthiness decides every
 * "is required" check in the models.
 */
module Documents {
  import opened Wrappers

  /** An ObjectId, by its hexadecimal string form. */
  type ObjectId = string

  /** One reading of the clock (`new Date()`); readings are abstract. */
  type Timestamp = int

  datatype Value =
    | Null
    | Bool(b: bool)
    | Num(x: real)
    | Str(s: string)
    | List(items: seq<Value>)
    | Stamp(t: Timestamp)
    | Ref(id: ObjectId)

  type Doc = map<string, Value>

  type Store = map<ObjectId, Doc>

  /** What a model operation throws. */
  datatype Fault =
    | Thrown(message: string)   // `throw new Error(message)`
    | NullAccess                // a property read on `null` (TypeError)
    | BadObjectId               // `new ObjectId(...)` of something that is not an id

  /** JavaScript truthiness: null, false, 0, "" are falsy; arrays, dates and ids are truthy. */
  function Truthy(v: Value): (b: bool)
    ensures !b <==> v == Null || v == Bool(false) || v == Num(0.0) || v == Str("")
  {
    match v
    case Null => false
    case Bool(b) => b
    case Num(x) => x != 0.0
    case Str(s) => s != ""
    case _ => true
  }

  /** `!!doc.key`: an absent field reads as `undefined`, which is falsy. */
  predicate Present(d: Doc, key: string)
  {
    key in d && Truthy(d[key])
  }

  /** `d.key`, with an absent field read as `undefined`, here `Null`. */
  function Field(d: Doc, key: string): (v: Value)
    ensures key in d ==> v == d[key]
    ensures key !in d ==> !Truthy(v)
  {
    if key in d then d[key] else Null
  }

  /**
   * The number of UTF-16 code units of `s`, which is what JavaScript's
   * `length` counts: a character outside the Basic Multilingual Plane
   * takes two (a surrogate pair).
   */
  function Utf16Length(s: string): (n: nat)
    ensures |s| <= n <= 2 * |s|
    ensures n == |s| <==> forall i :: 0 <= i < |s| ==> (s[i] as int) < 0x1_0000
  {
    if s == [] then 0
    else (if (s[0] as int) >= 0x1_0000 then 2 else 1) + Utf16Length(s[1..])
  }

  /** `v.length`, which only strings (in UTF-16 code units) and arrays have. */
  function Length(v: Value): (r: Option<nat>)
    ensures r.Some? <==> v.Str? || v.List?
    ensures v.Str? ==> r == Some(Utf16Length(v.s)) && |v.s| <= r.value
    ensures v.List? ==> r == Some(|v.items|)
  {
    match v
    case Str(s) => Some(Utf16Length(s))
    case List(items) => Some(|items|)
    case _ => None
  }

  /** `new ObjectId(String(v))`: ids and their string forms convert, anything else throws. */
  function IdOf(v: Value): (r: Option<ObjectId>)
    ensures r.Some? <==> v.Ref? || v.Str?
  {
    match v
    case Ref(id) => Some(id)
    case Str(s) => Some(s)
    case _ => None
  }

  /** `new ObjectId(String(d._id))`; a missing `_id` reads as the string "undefined", which is no id. */
  function IdField(d: Doc): (r: Option<ObjectId>)
    ensures "_id" !in d ==> r.None?
    ensures "_id" in d ==> r == IdOf(d["_id"])
  {
    if "_id" in d then IdOf(d["_id"]) else None
  }

  /** `{ _id, ...rest } = d`: the document without its `_id`. */
  function WithoutId(d: Doc): (r: Doc)
    ensures "_id" !in r
    ensures forall k :: k in d && k != "_id" ==> k in r && r[k] == d[k]
    ensures r.Keys <= d.Keys
  {
    d - {"_id"}
  }

  /**
   * MongoDB's `$set`: every field of `fields` takes its new value and every
   * other field of `doc` keeps its old one.
   */
  function SetFields(doc: Doc, fields: Doc): (r: Doc)
    ensures r.Keys == doc.Keys + fields.Keys
    ensures forall k :: k in fields ==> r[k] == fields[k]
    ensures forall k :: k in doc && k !in fields ==> r[k] == doc[k]
  {
    doc + fields
  }

  /** True when some document of `store` has `value` in field `key` (`findOne({ key: value })`). */
  predicate Taken(store: Store, key: string, value: Value)
  {
    exists id :: id in store && key in store[id] && store[id][key] == value
  }

  /** One guard of a chain of `if (!ok) throw new Error(message)` statements. */
  datatype Check = Check(ok: bool, message: string)

  /** The message of the first guard that fails, in the order they are written. */
  function FirstFailure(checks: seq<Check>): Option<string>
  {
    if checks == [] then None
    else if !checks[0].ok then Some(checks[0].message)
    else FirstFailure(checks[1..])
  }

  /**
   * `FirstFailure` reports nothing exactly when every guard passes, and
   * otherwise the message of a failing guard all of whose predecessors pass.
   */
  lemma {:induction false} FirstFailureIsFirst(checks: seq<Check>)
    ensures FirstFailure(checks).None? <==> forall i :: 0 <= i < |checks| ==> checks[i].ok
    ensures FirstFailure(checks).Some? ==>
              exists i :: 0 <= i < |checks| && !checks[i].ok
                          && FirstFailure(checks).value == checks[i].message
                          && forall j :: 0 <= j < i ==> checks[j].ok
  {
    if checks != [] && checks[0].ok {
      var tail := checks[1..];
      FirstFailureIsFirst(tail);
      assert forall i :: 0 < i < |checks| ==> checks[i] == tail[i - 1];
      if FirstFailure(tail).Some? {
        var i :| 0 <= i < |tail| && !tail[i].ok && FirstFailure(tail).value == tail[i].message
                 && forall j :: 0 <= j < i ==> tail[j].ok;
        assert forall j :: 0 <= j < i + 1 ==> checks[j].ok;
      }
    }
  }

  /** The first step of `FirstFailure`: the head guard decides unless it passes. */
  lemma FirstFailureStep(checks: seq<Check>)
    requires checks != []
    ensures FirstFailure(checks) == if !checks[0].ok then Some(checks[0].message) else FirstFailure(checks[1..])
  {
  }

  /** `FirstFailure` on a chain of six guards, written out as the chain of `if`s it stands for. */
  lemma FirstFailureOfSix(a: Check, b: Check, c: Check, d: Check, e: Check, f: Check)
    ensures FirstFailure([a, b, c, d, e, f])
            == if !a.ok then Some(a.message) else if !b.ok then Some(b.message)
               else if !c.ok then Some(c.message) else if !d.ok then Some(d.message)
               else if !e.ok then Some(e.message) else if !f.ok then Some(f.message)
               else None
  {
    var cs := [a, b, c, d, e, f];
    FirstFailureStep(cs);
    FirstFailureStep(cs[1..]);
    FirstFailureStep(cs[2..]);
    FirstFailureStep(cs[3..]);
    FirstFailureStep(cs[4..]);
    FirstFailureStep(cs[5..]);
    assert cs[6..] == [];
  }

  /** `FirstFailure` on nine guards: the first six as above, then three more. */
  lemma FirstFailureOfNine(a: Check, b: Check, c: Check, d: Check, e: Check, f: Check,
                           g: Check, h: Check, i: Check)
    ensures FirstFailure([a, b, c, d, e, f, g, h, i])
            == if FirstFailure([a, b, c, d, e, f]).Some? then FirstFailure([a, b, c, d, e, f])
               else if !g.ok then Some(g.message) else if !h.ok then Some(h.message)
               else if !i.ok then Some(i.message) else None
  {
    var cs := [a, b, c, d, e, f, g, h, i];
    FirstFailureOfSix(a, b, c, d, e, f);
    FirstFailureStep(cs);
    FirstFailureStep(cs[1..]);
    FirstFailureStep(cs[2..]);
    FirstFailureStep(cs[3..]);
    FirstFailureStep(cs[4..]);
    FirstFailureStep(cs[5..]);
    FirstFailureStep(cs[6..]);
    FirstFailureStep(cs[7..]);
    FirstFailureStep(cs[8..]);
    assert cs[9..] == [];
  }
}
