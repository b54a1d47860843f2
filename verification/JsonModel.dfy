// Decoded JSON (or YAML) values and what Python's str() makes of them. Floats
// are not modelled; what a list or a dict prints between its brackets is a
// parameter.
module JsonModel {

  import opened Wrappers
  import opened PyText

  datatype Json =
    | Null
    | Bool(b: bool)
    | Num(n: int)
    | Str(s: string)
    | Arr(items: seq<Json>)
    | Obj(fields: Dict)

  type Dict = map<string, Json>

  type Repr = Json -> string

  function PrintInt(n: int): string
  {
    if n < 0 then "-" + PrintNat(-n) else PrintNat(n)
  }

  predicate Truthy(v: Json)
  {
    match v
    case Null => false
    case Bool(b) => b
    case Num(n) => n != 0
    case Str(s) => s != ""
    case Arr(items) => items != []
    case Obj(fields) => fields != map[]
  }

  // str(value)
  function PyStr(repr: Repr, v: Json): string
  {
    match v
    case Null => "None"
    case Bool(b) => if b then "True" else "False"
    case Num(n) => PrintInt(n)
    case Str(s) => s
    case Arr(_) => "[" + repr(v) + "]"
    case Obj(_) => "{" + repr(v) + "}"
  }

  // str(value or "")
  function TextOr(repr: Repr, v: Json): string
  {
    if Truthy(v) then PyStr(repr, v) else ""
  }

  lemma NothingToSay(repr: Repr, v: Json)
    ensures TextOr(repr, v) == "" <==>
            v == Null || v == Bool(false) || v == Num(0) || v == Str("") || v == Arr([]) || v == Obj(map[])
  {
  }

  // mapping.get(key)
  function Get(d: Dict, key: string): Json
  {
    if key in d then d[key] else Null
  }

  // mapping.get(key, default)
  function GetOr(d: Dict, key: string, default: Json): Json
  {
    if key in d then d[key] else default
  }

  // ---------- a dict built pair after pair ----------

  // The pair is given, and no later one has its key.
  predicate GivenLast(pairs: seq<(string, string)>, key: string, value: string)
  {
    exists i :: 0 <= i < |pairs| && pairs[i] == (key, value) && forall j :: i < j < |pairs| ==> pairs[j].0 != key
  }

  lemma GivenLastStep(pairs: seq<(string, string)>, last: (string, string), key: string, value: string)
    ensures GivenLast(pairs + [last], key, value) <==>
            (key, value) == last || (key != last.0 && GivenLast(pairs, key, value))
  {
    var all := pairs + [last];
    assert all[|pairs|] == last;
    assert forall j :: 0 <= j < |pairs| ==> all[j] == pairs[j];
    if GivenLast(all, key, value) {
      var i :| 0 <= i < |all| && all[i] == (key, value) && forall j :: i < j < |all| ==> all[j].0 != key;
      assert i < |pairs| ==> key != last.0 && pairs[i] == (key, value);
      assert forall j :: i < j < |pairs| ==> all[j].0 != key;
    }
    if key != last.0 && GivenLast(pairs, key, value) {
      var i :| 0 <= i < |pairs| && pairs[i] == (key, value) && forall j :: i < j < |pairs| ==> pairs[j].0 != key;
      assert all[i] == (key, value) && forall j :: i < j < |all| ==> all[j].0 != key;
    }
  }
}
