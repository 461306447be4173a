/**
  `render` as written counts tags in a plain object literal, `{}`, whose
  lookups fall through to `Object.prototype`. This module models that object
  and shows which tags it miscounts; `View.TagCounts` is the corrected table.
 */
module TagTableAsWritten {
  import opened Notes
  import opened View

  /** The JavaScript values the counting expression can meet. */
  datatype JsValue = Undefined | Num(n: int) | Str(s: string) | Builtin(name: string) | ObjectPrototype

  /** The methods every object inherits from `Object.prototype`. */
  const PrototypeMethods: set<string> := {
    "constructor", "hasOwnProperty", "isPrototypeOf", "propertyIsEnumerable",
    "toLocaleString", "toString", "valueOf",
    "__defineGetter__", "__defineSetter__", "__lookupGetter__", "__lookupSetter__"}

  /** Keys that do not behave as plain data properties on `{}`. */
  predicate Reserved(key: string)
  {
    key in PrototypeMethods || key == "__proto__"
  }

  /** `obj[key]`: an own property, else what `Object.prototype` supplies. */
  function Lookup(obj: map<string, JsValue>, key: string): JsValue
  {
    if key in obj then obj[key]
    else if key == "__proto__" then ObjectPrototype
    else if key in PrototypeMethods then Builtin(key)
    else Undefined
  }

  predicate Truthy(v: JsValue)
  {
    match v
    case Undefined => false
    case Num(n) => n != 0
    case Str(s) => s != []
    case Builtin(_) => true
    case ObjectPrototype => true
  }

  /**
    How V8 (Chrome, Edge, Node) prints a built-in function when it is turned
    into a string; other engines lay the text out differently.
   */
  function BuiltinSource(name: string): string
  {
    if name == "constructor" then "function Object() { [native code] }"
    else "function " + name + "() { [native code] }"
  }

  /** `(v || 0) + 1`: numbers add, anything else is concatenated as text. */
  function OrZeroPlusOne(v: JsValue): JsValue
  {
    if !Truthy(v) then Num(1)
    else match v
      case Num(n) => Num(n + 1)
      case Str(s) => Str(s + "1")
      case Builtin(name) => Str(BuiltinSource(name) + "1")
      case ObjectPrototype => Str("[object Object]1")
      case Undefined => Num(1)
  }

  /** `obj[key] = v`: assigning a primitive to `__proto__` is ignored. */
  function Store(obj: map<string, JsValue>, key: string, v: JsValue): map<string, JsValue>
  {
    if key == "__proto__" then obj else obj[key := v]
  }

  /** `tagCounts[t] = (tagCounts[t] || 0) + 1` for each tag in turn. */
  function BumpAll(obj: map<string, JsValue>, tags: seq<string>): map<string, JsValue>
  {
    if tags == [] then obj
    else
      var t := tags[|tags| - 1];
      var before := BumpAll(obj, tags[..|tags| - 1]);
      Store(before, t, OrZeroPlusOne(Lookup(before, t)))
  }

  /** The table the nested `forEach` builds, starting from `{}`. */
  function Counts(notes: seq<Note>): map<string, JsValue>
  {
    if notes == [] then map[]
    else BumpAll(Counts(notes[..|notes| - 1]), notes[|notes| - 1].tags)
  }

  /** `obj` holds exactly the counts in `bag`, for every key that is not reserved. */
  ghost predicate HoldsCounts(obj: map<string, JsValue>, bag: multiset<string>)
  {
    forall key :: (key in obj <==> !Reserved(key) && bag[key] > 0)
      && (key in obj ==> obj[key] == Num(bag[key]))
  }

  /** One `tagCounts[t] = (tagCounts[t] || 0) + 1` for a tag that is not reserved. */
  lemma BumpOne(obj: map<string, JsValue>, bag: multiset<string>, t: string)
    requires HoldsCounts(obj, bag) && !Reserved(t)
    ensures HoldsCounts(Store(obj, t, OrZeroPlusOne(Lookup(obj, t))), bag + multiset{t})
  {
    if t in obj {
      assert obj[t] == Num(bag[t]) && bag[t] > 0;
    } else {
      assert bag[t] == 0;
    }
  }

  lemma {:induction false} BumpAllCounts(obj: map<string, JsValue>, tags: seq<string>, bag: multiset<string>)
    requires HoldsCounts(obj, bag)
    requires forall k :: 0 <= k < |tags| ==> !Reserved(tags[k])
    ensures HoldsCounts(BumpAll(obj, tags), bag + multiset(tags))
  {
    if tags == [] {
      assert bag + multiset(tags) == bag;
    } else {
      var front, t := tags[..|tags| - 1], tags[|tags| - 1];
      BumpAllCounts(obj, front, bag);
      BumpOne(BumpAll(obj, front), bag + multiset(front), t);
      assert tags == front + [t];
      assert bag + multiset(tags) == bag + multiset(front) + multiset{t};
    }
  }

  /** All tags of all notes, with repetitions. */
  function TagBag(notes: seq<Note>): (bag: multiset<string>)
    ensures forall t :: bag[t] == Occurrences(notes, t)
  {
    if notes == [] then multiset{}
    else TagBag(notes[..|notes| - 1]) + multiset(notes[|notes| - 1].tags)
  }

  /** Away from the prototype's names, the table as written counts correctly. */
  lemma {:induction false} CountsAgree(notes: seq<Note>)
    requires forall i, k :: 0 <= i < |notes| && 0 <= k < |notes[i].tags| ==> !Reserved(notes[i].tags[k])
    ensures forall t :: t in Counts(notes) <==> !Reserved(t) && Occurrences(notes, t) > 0
    ensures forall t :: t in Counts(notes) ==> Counts(notes)[t] == Num(Occurrences(notes, t))
  {
    CountsHold(notes);
  }

  lemma {:induction false} CountsHold(notes: seq<Note>)
    requires forall i, k :: 0 <= i < |notes| && 0 <= k < |notes[i].tags| ==> !Reserved(notes[i].tags[k])
    ensures HoldsCounts(Counts(notes), TagBag(notes))
  {
    if notes != [] {
      var front := notes[..|notes| - 1];
      CountsHold(front);
      BumpAllCounts(Counts(front), notes[|notes| - 1].tags, TagBag(front));
    }
  }

  /**
    One note tagged "constructor" and "__proto__": each tag occurs once, but
    the first is shown with a garbled count and the second is not listed.
   */
  lemma PrototypeTagsMiscounted()
    ensures var n := Note("n1", "Title", "", None, "low", ["constructor", "__proto__"], false, 0);
      && Occurrences([n], "constructor") == 1 && Occurrences([n], "__proto__") == 1
      && Counts([n]) == map["constructor" := Str("function Object() { [native code] }1")]
  {
    var n := Note("n1", "Title", "", None, "low", ["constructor", "__proto__"], false, 0);
    assert [n][..0] == [];
    assert n.tags[..1] == ["constructor"] && n.tags[..1][..0] == [];
    var empty: map<string, JsValue> := map[];
    assert Lookup(empty, "constructor") == Builtin("constructor");
    var one: seq<string> := ["constructor"];
    assert one[..0] == [] && one[0] == "constructor";
    assert BumpAll(empty, one[..0]) == empty;
    assert OrZeroPlusOne(Builtin("constructor")) == Str("function Object() { [native code] }1");
    var once := BumpAll(empty, one);
    assert once == Store(empty, "constructor", OrZeroPlusOne(Lookup(empty, "constructor")));
    assert once == map["constructor" := Str("function Object() { [native code] }1")];
    assert BumpAll(empty, n.tags) == Store(once, "__proto__", OrZeroPlusOne(Lookup(once, "__proto__")));
  }
}
