/** `normalize_list`: turns whatever a stage's list field holds into a list
    of printable elements. Strings stay, a dict with a `description` key
    gives that value (whatever its type), anything else gives `str(item)`. */
module Normalizer {
  import opened Common
  import opened PyJson

  /** The element `normalize_list` appends for one visited item. */
  function NormalizeItem(lib: Lib, item: Json): Json {
    match item
    case JStr(_) => item
    case JObj(m) => if "description" in m then m["description"] else JStr(lib.repr(item))
    case _ => JStr(lib.repr(item))
  }

  /** `normalize_list(items)` as a value: one output element per item the
      `for` loop visits, or the TypeError of iterating a non-iterable. */
  function NormalizedList(lib: Lib, items: Json): Result<seq<Json>> {
    var visited :- IterItems(lib, items);
    Ok(seq(|visited|, i requires 0 <= i < |visited| => NormalizeItem(lib, visited[i])))
  }

  /** The loop of `normalize_list`, appending to a fresh list. */
  method NormalizeList(lib: Lib, items: Json) returns (r: Result<seq<Json>>)
    ensures r == NormalizedList(lib, items)
  {
    var visited := IterItems(lib, items);
    if visited.Err? {
      return Err(visited.error);
    }
    var xs := visited.value;
    var normalized: seq<Json> := [];
    for i := 0 to |xs|
      invariant |normalized| == i
      invariant forall k :: 0 <= k < i ==> normalized[k] == NormalizeItem(lib, xs[k])
    {
      var item := xs[i];
      if item.JStr? {
        normalized := normalized + [item];
      } else if item.JObj? {
        if "description" in item.fields {
          normalized := normalized + [item.fields["description"]];
        } else {
          normalized := normalized + [JStr(lib.repr(item))];
        }
      } else {
        normalized := normalized + [JStr(lib.repr(item))];
      }
    }
    assert normalized == NormalizedList(lib, items).value;
    r := Ok(normalized);
  }

  /** On a list the result has one element per input element, in order:
      a string is kept, a dict with `description` gives that value
      uncoerced, and any other element gives `str(item)`. Only a value that
      cannot be iterated makes it fail, with TypeError. */
  lemma ListShape(lib: Lib, xs: seq<Json>)
    ensures NormalizedList(lib, JArr(xs)).Ok?
    ensures var ys := NormalizedList(lib, JArr(xs)).value;
      && |ys| == |xs|
      && (forall i :: 0 <= i < |xs| && xs[i].JStr? ==> ys[i] == xs[i])
      && (forall i :: 0 <= i < |xs| && xs[i].JObj? && "description" in xs[i].fields ==>
            ys[i] == xs[i].fields["description"])
      && (forall i :: 0 <= i < |xs| && !xs[i].JStr? && !(xs[i].JObj? && "description" in xs[i].fields) ==>
            ys[i] == JStr(lib.repr(xs[i])))
  {
  }

  /** `normalize_list` fails exactly on None, booleans and numbers. */
  lemma FailsOnlyOnScalars(lib: Lib, items: Json)
    ensures NormalizedList(lib, items).Err? <==>
      items.JNull? || items.JBool? || items.JInt? || items.JFloat?
    ensures NormalizedList(lib, items).Err? ==> NormalizedList(lib, items).error == TypeError
  {
  }

  /** The map is element-wise, so it commutes with concatenation: no element
      is dropped, added or reordered. */
  lemma Concatenation(lib: Lib, xs: seq<Json>, ys: seq<Json>)
    ensures NormalizedList(lib, JArr(xs + ys)).value ==
      NormalizedList(lib, JArr(xs)).value + NormalizedList(lib, JArr(ys)).value
  {
    var l := NormalizedList(lib, JArr(xs + ys)).value;
    var a := NormalizedList(lib, JArr(xs)).value;
    var b := NormalizedList(lib, JArr(ys)).value;
    assert |l| == |a + b|;
    forall i | 0 <= i < |l| ensures l[i] == (a + b)[i] {
      if i < |xs| {
        assert (xs + ys)[i] == xs[i];
      } else {
        assert (xs + ys)[i] == ys[i - |xs|];
      }
    }
  }

  predicate AllStrings(xs: seq<Json>) {
    forall i :: 0 <= i < |xs| ==> xs[i].JStr?
  }

  /** A dict is iterated over its keys: the result lists each key exactly
      once, as a string, whatever order the dict yields them in. */
  lemma DictKeys(lib: Lib, m: map<string, Json>)
    requires ValidLib(lib)
    ensures NormalizedList(lib, JObj(m)).Ok?
    ensures var ys := NormalizedList(lib, JObj(m)).value;
      && (forall i, j :: 0 <= i < j < |ys| ==> ys[i] != ys[j])
      && (forall k :: JStr(k) in ys <==> k in m)
  {
    DictIteration(lib, m);
    var ks := IterItems(lib, JObj(m)).value;
    var ys := NormalizedList(lib, JObj(m)).value;
    assert forall i :: 0 <= i < |ks| ==> ys[i] == ks[i];
    assert ys == ks;
  }

  /** A list of strings comes back equal. */
  lemma StringsUnchanged(lib: Lib, xs: seq<Json>)
    requires AllStrings(xs)
    ensures NormalizedList(lib, JArr(xs)) == Ok(xs)
  {
    var ys := NormalizedList(lib, JArr(xs)).value;
    assert forall i :: 0 <= i < |xs| ==> ys[i] == xs[i];
    assert ys == xs;
  }

  /** When every dict with `description` holds a string there, the output
      is all strings, and normalising it again changes nothing. */
  lemma Idempotent(lib: Lib, xs: seq<Json>)
    requires forall i :: 0 <= i < |xs| && xs[i].JObj? && "description" in xs[i].fields ==>
      xs[i].fields["description"].JStr?
    ensures AllStrings(NormalizedList(lib, JArr(xs)).value)
    ensures var ys := NormalizedList(lib, JArr(xs)).value;
      NormalizedList(lib, JArr(ys)) == Ok(ys)
  {
    var ys := NormalizedList(lib, JArr(xs)).value;
    forall i | 0 <= i < |ys| ensures ys[i].JStr? {
      assert ys[i] == NormalizeItem(lib, xs[i]);
    }
    StringsUnchanged(lib, ys);
  }

  /** A string is iterated character by character. */
  lemma StringExplodes(lib: Lib, s: string)
    ensures NormalizedList(lib, JStr(s)).Ok?
    ensures var ys := NormalizedList(lib, JStr(s)).value;
      |ys| == |s| && forall i :: 0 <= i < |s| ==> ys[i] == JStr([s[i]])
  {
  }
}
