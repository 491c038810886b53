/** The Python values the activity-log script handles: decoded JSON (None, bool,
    int, str, list, dict), dictionary lookups, and `str()` of a value. */
module PyValue {

  import opened Wrappers
  import opened PyText

  /** A decoded JSON value. A dict is its key/value pairs in insertion order.
      A decoded dict has distinct keys; the datatype does not enforce this, so the
      lemmas that depend on it (`LookupAt` and the lemmas about the copied fields
      of a flattened event) require `DistinctKeys`, while `Lookup` returns the
      first pair with the key. Floating-point numbers are not modelled. */
  datatype Value =
    | Null
    | Bool(b: bool)
    | Int(i: int)
    | Str(s: string)
    | List(items: seq<Value>)
    | Dict(fields: seq<(string, Value)>)

  predicate DistinctKeys(fields: seq<(string, Value)>) {
    forall i, j :: 0 <= i < j < |fields| ==> fields[i].0 != fields[j].0
  }

  predicate HasKey(fields: seq<(string, Value)>, key: string) {
    exists i :: 0 <= i < |fields| && fields[i].0 == key
  }

  /** `d[key]` / `d.get(key)` on a dict: the value stored under `key`, if any. */
  function Lookup(fields: seq<(string, Value)>, key: string): (r: Option<Value>)
    ensures r.Some? <==> HasKey(fields, key)
  {
    if fields == [] then None
    else if fields[0].0 == key then Some(fields[0].1)
    else
      HasKeyCons(fields, key);
      Lookup(fields[1..], key)
  }

  /** A dict holds a key when its first field has it or the remaining fields do. */
  lemma HasKeyCons(fields: seq<(string, Value)>, key: string)
    requires fields != []
    ensures HasKey(fields, key) <==> fields[0].0 == key || HasKey(fields[1..], key)
  {
    if HasKey(fields, key) && fields[0].0 != key {
      var i :| 0 <= i < |fields| && fields[i].0 == key;
      assert fields[1..][i - 1].0 == key;
    }
    if HasKey(fields[1..], key) {
      var i :| 0 <= i < |fields[1..]| && fields[1..][i].0 == key;
      assert fields[i + 1].0 == key;
    }
  }

  /** The value found under a key is stored under that key. */
  lemma {:induction false} LookupFound(fields: seq<(string, Value)>, key: string)
    requires HasKey(fields, key)
    ensures exists i :: 0 <= i < |fields| && fields[i] == (key, Lookup(fields, key).value)
  {
    if fields[0].0 == key {
      assert fields[0] == (key, Lookup(fields, key).value);
    } else {
      HasKeyCons(fields, key);
      LookupFound(fields[1..], key);
      var i :| 0 <= i < |fields[1..]| && fields[1..][i] == (key, Lookup(fields[1..], key).value);
      assert fields[i + 1] == (key, Lookup(fields, key).value);
    }
  }

  /** With distinct keys, the value found under a key is the one stored at its position. */
  lemma {:induction false} LookupAt(fields: seq<(string, Value)>, i: nat)
    requires DistinctKeys(fields) && i < |fields|
    ensures Lookup(fields, fields[i].0) == Some(fields[i].1)
  {
    if i > 0 {
      assert forall j :: 0 <= j < |fields| - 1 ==> fields[1..][j] == fields[j + 1];
      assert fields[1..][i - 1] == fields[i];
      LookupAt(fields[1..], i - 1);
    }
  }

  /** A key of `a + b` is a key of `a` or of `b`. */
  lemma HasKeyAppend(a: seq<(string, Value)>, b: seq<(string, Value)>, key: string)
    ensures HasKey(a + b, key) <==> HasKey(a, key) || HasKey(b, key)
  {
    if HasKey(a + b, key) {
      var i :| 0 <= i < |a + b| && (a + b)[i].0 == key;
      if i < |a| {
        assert a[i].0 == key;
      } else {
        assert b[i - |a|].0 == key;
      }
    }
    if HasKey(a, key) {
      var i :| 0 <= i < |a| && a[i].0 == key;
      assert (a + b)[i].0 == key;
    }
    if HasKey(b, key) {
      var i :| 0 <= i < |b| && b[i].0 == key;
      assert (a + b)[|a| + i].0 == key;
    }
  }

  /** A key of `a + b` is looked up in `a` first. */
  lemma {:induction false} LookupAppend(a: seq<(string, Value)>, b: seq<(string, Value)>, key: string)
    ensures Lookup(a + b, key) == if HasKey(a, key) then Lookup(a, key) else Lookup(b, key)
  {
    if a == [] {
      assert a + b == b;
    } else if a[0].0 == key {
      assert (a + b)[0] == a[0];
      assert HasKey(a, key);
    } else {
      assert (a + b)[0] == a[0] && (a + b)[1..] == a[1..] + b;
      HasKeyCons(a, key);
      LookupAppend(a[1..], b, key);
    }
  }

  /** Joining dicts whose keys are apart keeps the keys distinct. */
  lemma DistinctKeysAppend(a: seq<(string, Value)>, b: seq<(string, Value)>)
    requires DistinctKeys(a) && DistinctKeys(b)
    requires forall i :: 0 <= i < |a| ==> !HasKey(b, a[i].0)
    ensures DistinctKeys(a + b)
  {
    forall i, j | 0 <= i < j < |a + b|
      ensures (a + b)[i].0 != (a + b)[j].0
    {
      if i < |a| && j >= |a| {
        assert (a + b)[j] == b[j - |a|];
      }
    }
  }

  /** `repr(v)`. Strings are shown between single quotes without escaping. */
  function Repr(v: Value): string
    decreases v
  {
    match v
    case Null => "None"
    case Bool(b) => if b then "True" else "False"
    case Int(i) => IntToDecimal(i)
    case Str(s) => "'" + s + "'"
    case List(items) => "[" + ReprItems(items) + "]"
    case Dict(fields) => "{" + ReprFields(fields) + "}"
  }

  function ReprItems(items: seq<Value>): string
    decreases items
  {
    if items == [] then ""
    else if |items| == 1 then Repr(items[0])
    else Repr(items[0]) + ", " + ReprItems(items[1..])
  }

  function ReprFields(fields: seq<(string, Value)>): string
    decreases fields
  {
    if fields == [] then ""
    else
      var (key, value) := fields[0];
      assert value < fields[0];
      var field := "'" + key + "': " + Repr(value);
      if |fields| == 1 then field else field + ", " + ReprFields(fields[1..])
  }

  /** `str(v)`: a string is itself, anything else its `repr`. */
  function StrOf(v: Value): string {
    if v.Str? then v.s else Repr(v)
  }

  /** `str()` of a dict is enclosed in braces, so it has no surrounding whitespace,
      and it is exactly `{}` when the dict is empty. */
  lemma DictStr(fields: seq<(string, Value)>)
    ensures Trimmed(StrOf(Dict(fields)))
    ensures StrOf(Dict(fields)) == "{}" <==> fields == []
  {
    var r := StrOf(Dict(fields));
    assert r == "{" + ReprFields(fields) + "}";
    assert r[0] == '{' && r[|r| - 1] == '}';
    if fields != [] {
      assert ReprFields(fields)[0] == '\'';
      assert |r| > 2;
    }
  }
}
