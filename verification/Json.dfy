/** Parsed JSON values, as the profile code receives and stores them. */
module Json {
  import opened Wrappers
  import opened Strings

  datatype Json =
    | Null
    | Bool(value: bool)
    | Num(text: string)
    | Str(s: string)
    | Arr(items: seq<Json>)
    | Obj(fields: map<string, Json>)

  /** Property access; a missing property and one on a non-object read as Null. */
  function Field(j: Json, name: string): Json {
    if j.Obj? && name in j.fields then j.fields[name] else Null
  }

  /** `String(value)`. A number carries its own rendering. */
  function ToText(j: Json): string {
    match j
    case Null => "null"
    case Bool(b) => if b then "true" else "false"
    case Num(text) => text
    case Str(s) => s
    case Arr(items) =>
      Join(seq(|items|, i requires 0 <= i < |items| => if items[i].Null? then "" else ToText(items[i])), ",")
    case Obj(_) => "[object Object]"
  }

  function Items(v: Json): seq<Json> {
    if v.Arr? then v.items else []
  }

  function TextOrNull(t: Option<string>): Json {
    match t case Some(s) => Str(s) case None => Null
  }

  function Texts(s: seq<string>): Json {
    Arr(seq(|s|, i requires 0 <= i < |s| => Str(s[i])))
  }

  /** The values f finds among the items, each kept where it first occurs: `[...new Set(...)]`. */
  function Distinct(items: seq<Json>, f: Json -> Option<string>): (r: seq<string>)
    ensures forall i, j :: 0 <= i < j < |r| ==> r[i] != r[j]
    ensures forall x :: x in r ==> exists k :: 0 <= k < |items| && f(items[k]) == Some(x)
    ensures forall k :: 0 <= k < |items| && f(items[k]).Some? ==> f(items[k]).value in r
  {
    if |items| == 0 then []
    else
      var init := Distinct(items[..|items| - 1], f);
      match f(items[|items| - 1])
      case Some(x) => if x in init then init else init + [x]
      case None => init
  }

  /** The values of the first items come first, in their own order. */
  lemma {:induction false} DistinctIsInOrder(items: seq<Json>, n: nat, f: Json -> Option<string>)
    requires n <= |items|
    ensures Distinct(items[..n], f) <= Distinct(items, f)
    decreases |items| - n
  {
    if n < |items| {
      DistinctIsInOrder(items, n + 1, f);
      assert items[..n + 1][..n] == items[..n];
    } else {
      assert items[..n] == items;
    }
  }

  ghost predicate NoRepeats(s: seq<string>) {
    forall i, j :: 0 <= i < j < |s| ==> s[i] != s[j]
  }

  lemma {:induction false} DistinctReadsBack(s: seq<string>, items: seq<Json>, f: Json -> Option<string>)
    requires NoRepeats(s)
    requires |items| == |s| && forall i :: 0 <= i < |s| ==> items[i] == Str(s[i]) && f(Str(s[i])) == Some(s[i])
    ensures Distinct(items, f) == s
  {
    if |s| > 0 {
      DistinctReadsBack(s[..|s| - 1], items[..|s| - 1], f);
      assert s == s[..|s| - 1] + [s[|s| - 1]];
    }
  }
}
