/**
 * The nested key/value tree that both the reduced-YAML reader and the
 * JSON manifest produce, with the few Python built-ins the validator
 * applies to such values: `str()`, truthiness, iteration and `int()`.
 * Dictionaries keep Python's insertion order: assigning an existing key
 * replaces its value in place.
 */
module Values {
  import opened Wrappers
  import opened Strs

  datatype Value =
    | Null
    | Bool(b: bool)
    | Int(i: int)
    | Str(s: string)
    | List(items: seq<Value>)
    | Dict(entries: seq<(string, Value)>)

  predicate HasKey(entries: seq<(string, Value)>, key: string) {
    exists i :: 0 <= i < |entries| && entries[i].0 == key
  }

  predicate UniqueKeys(entries: seq<(string, Value)>) {
    forall i, j :: 0 <= i < j < |entries| ==> entries[i].0 != entries[j].0
  }

  /** A key other than the first one's is present exactly when the rest has it. */
  lemma HasKeyTail(entries: seq<(string, Value)>, key: string)
    requires entries != [] && entries[0].0 != key
    ensures HasKey(entries, key) <==> HasKey(entries[1..], key)
  {
    assert forall i :: 0 < i < |entries| ==> entries[i] == entries[1..][i - 1];
  }

  /** `d.get(key)`: the value stored under `key`, if any. */
  function Get(entries: seq<(string, Value)>, key: string): (r: Option<Value>)
    ensures r.Some? <==> HasKey(entries, key)
    ensures r.Some? ==> exists i :: 0 <= i < |entries| && entries[i] == (key, r.value)
  {
    if entries == [] then None
    else if entries[0].0 == key then Some(entries[0].1)
    else
      var r := Get(entries[1..], key);
      HasKeyTail(entries, key);
      r
  }

  /** `d[key] = v`: replaces the value of an existing key in place, or appends. */
  function Put(entries: seq<(string, Value)>, key: string, v: Value): (r: seq<(string, Value)>)
    ensures Get(r, key) == Some(v)
    ensures forall k :: k != key ==> Get(r, k) == Get(entries, k)
    ensures !HasKey(entries, key) ==> r == entries + [(key, v)]
  {
    if entries == [] then [(key, v)]
    else if entries[0].0 == key then
      GetCons((key, v), entries[1..]);
      [(key, v)] + entries[1..]
    else
      var t := Put(entries[1..], key, v);
      HasKeyTail(entries, key);
      GetCons(entries[0], t);
      assert !HasKey(entries, key) ==> [entries[0]] + t == entries + [(key, v)] by {
        if !HasKey(entries, key) {
          AppendAssoc([entries[0]], entries[1..], [(key, v)]);
          assert [entries[0]] + entries[1..] == entries;
        }
      }
      [entries[0]] + t
  }

  /** Looking a key up in a list with one more entry in front. */
  lemma GetCons(e: (string, Value), t: seq<(string, Value)>)
    ensures forall k :: Get([e] + t, k) == if e.0 == k then Some(e.1) else Get(t, k)
  {
    assert ([e] + t)[1..] == t;
  }

  /** Assignment never introduces a repeated key. */
  lemma {:induction false} PutKeepsKeysUnique(entries: seq<(string, Value)>, key: string, v: Value)
    requires UniqueKeys(entries)
    ensures UniqueKeys(Put(entries, key, v))
  {
    if entries != [] && entries[0].0 != key {
      var t := Put(entries[1..], key, v);
      PutKeepsKeysUnique(entries[1..], key, v);
      assert !HasKey(entries[1..], entries[0].0);
      assert Get(t, entries[0].0) == Get(entries[1..], entries[0].0);
      assert !HasKey(t, entries[0].0);
      ConsUnique(entries[0], t);
    }
  }

  /** A new first entry keeps the keys unique when its key is not already there. */
  lemma ConsUnique(e: (string, Value), t: seq<(string, Value)>)
    requires UniqueKeys(t) && !HasKey(t, e.0)
    ensures UniqueKeys([e] + t)
  {
    var s := [e] + t;
    forall i, j | 0 <= i < j < |s| ensures s[i].0 != s[j].0 {
      assert s[j] == t[j - 1];
      if i > 0 {
        assert s[i] == t[i - 1];
      }
    }
  }

  /** Python truthiness. */
  predicate Truthy(v: Value) {
    match v
    case Null => false
    case Bool(b) => b
    case Int(i) => i != 0
    case Str(s) => s != []
    case List(xs) => xs != []
    case Dict(es) => es != []
  }

  /** `d.get(key) or default`. */
  function GetOr(entries: seq<(string, Value)>, key: string, default: Value): (r: Value)
    ensures Get(entries, key).Some? && Truthy(Get(entries, key).value) ==> r == Get(entries, key).value
    ensures (Get(entries, key).None? || !Truthy(Get(entries, key).value)) ==> r == default
  {
    match Get(entries, key)
    case Some(v) => if Truthy(v) then v else default
    case None => default
  }

  /**
   * What a Python `for` loop visits: a list's items, a string's characters,
   * a dictionary's keys; `None` where Python raises `TypeError`.
   */
  function Iterate(v: Value): (r: Option<seq<Value>>)
    ensures r.None? <==> v.Null? || v.Bool? || v.Int?
    ensures v.List? ==> r == Some(v.items)
    ensures v.Str? ==> r.Some? && |r.value| == |v.s| && forall i :: 0 <= i < |v.s| ==> r.value[i] == Str([v.s[i]])
  {
    match v
    case List(xs) => Some(xs)
    case Str(s) => Some(seq(|s|, i requires 0 <= i < |s| => Str([s[i]])))
    case Dict(es) => Some(seq(|es|, i requires 0 <= i < |es| => Str(es[i].0)))
    case _ => None
  }

  /** Python's `str(v)`. */
  function PyStr(v: Value): string
    decreases v, 1
  {
    match v
    case Null => "None"
    case Bool(b) => if b then "True" else "False"
    case Int(i) => IntToDec(i)
    case Str(s) => s
    case List(xs) => "[" + ReprItems(v, xs) + "]"
    case Dict(es) => "{" + ReprEntries(v, es) + "}"
  }

  /** `[str(x) for x in xs]`. */
  function PyStrs(xs: seq<Value>): (r: seq<string>)
    ensures |r| == |xs| && forall k :: 0 <= k < |xs| ==> r[k] == PyStr(xs[k])
  {
    if xs == [] then [] else [PyStr(xs[0])] + PyStrs(xs[1..])
  }

  /** Python's `repr(v)` inside a container: strings are quoted. */
  function Repr(v: Value): string
    decreases v, 2
  {
    if v.Str? then "'" + v.s + "'" else PyStr(v)
  }

  function ReprItems(parent: Value, xs: seq<Value>): string
    requires forall x :: x in xs ==> x < parent
    decreases parent, 0, |xs|
  {
    if xs == [] then ""
    else
      assert xs[0] in xs;
      if |xs| == 1 then Repr(xs[0])
      else
        assert forall x :: x in xs[1..] ==> x in xs;
        Repr(xs[0]) + ", " + ReprItems(parent, xs[1..])
  }

  function ReprEntries(parent: Value, es: seq<(string, Value)>): string
    requires forall i :: 0 <= i < |es| ==> es[i].1 < parent
    decreases parent, 0, |es|
  {
    if es == [] then ""
    else
      var head := "'" + es[0].0 + "': " + Repr(es[0].1);
      if |es| == 1 then head else head + ", " + ReprEntries(parent, es[1..])
  }

  /** `str(v)` is empty only for the empty string. */
  lemma PyStrEmpty(v: Value)
    ensures PyStr(v) == [] <==> v == Str([])
  {
    match v
    case List(xs) => assert |PyStr(v)| >= 2;
    case Dict(es) => assert |PyStr(v)| >= 2;
    case _ =>
  }

  /** `str()` of a string is the string itself, and of an integer its decimal text. */
  lemma PyStrOfScalars(s: string, i: int)
    ensures PyStr(Str(s)) == s
    ensures PyStr(Int(i)) == IntToDec(i)
    ensures PyStr(Null) == "None"
  {
  }

  /**
   * `str()` of a container writes its items by `repr`: strings in single
   * quotes, everything else as `str()` would, separated by ", ".
   */
  lemma PyStrOfContainers(s: string, k: string, i: int)
    ensures PyStr(List([])) == "[]" && PyStr(Dict([])) == "{}"
    ensures PyStr(List([Str(s), Null])) == "['" + s + "', None]"
    ensures PyStr(Dict([(k, Int(i))])) == "{'" + k + "': " + IntToDec(i) + "}"
  {
    var l := List([Str(s), Null]);
    assert ReprItems(l, [Null]) == "None";
    assert ReprItems(l, [Str(s), Null]) == "'" + s + "'" + ", " + "None";
    var d := Dict([(k, Int(i))]);
    assert Repr(Int(i)) == IntToDec(i);
    assert ReprEntries(d, [(k, Int(i))]) == "'" + k + "': " + IntToDec(i);
  }

  /** Python's `int(v)`; `None` where Python raises. */
  function PyInt(v: Value): (r: Option<int>)
    ensures v.Int? ==> r == Some(v.i)
    ensures v.Bool? ==> r == Some(if v.b then 1 else 0)
    ensures v.Null? || v.List? || v.Dict? ==> r.None?
  {
    match v
    case Int(i) => Some(i)
    case Bool(b) => Some(if b then 1 else 0)
    case Str(s) => ParseIntText(s)
    case _ => None
  }

  /** `int(str(i)) == i`: the decimal text of an integer converts back to it. */
  lemma PyIntOfDecimal(i: int)
    ensures PyInt(Str(IntToDec(i))) == Some(i)
  {
    IntToDecLiteral(i);
    IntToDecStripped(i);
    ParseSignedLiteral(IntToDec(i));
  }
}
