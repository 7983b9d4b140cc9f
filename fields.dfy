/**
 * Field selection: the working list of properties the engine converts, looked
 * up by name with SingleOrDefault, shortened with List.Remove, and filtered by
 * the ignore list (RemoveIgnoredProperties).
 *
 * A PropertyInfo is the position of its property in the record, so the working
 * list is a `seq<nat>` of positions.
 */
module Fields {
  import opened Values

  /** Every entry of `props` is a position in `rec`. */
  predicate Refs(rec: Record, props: seq<nat>) {
    forall k :: 0 <= k < |props| ==> props[k] < |rec|
  }

  predicate Distinct(props: seq<nat>) {
    forall j, k :: 0 <= j < k < |props| ==> props[j] != props[k]
  }

  predicate DistinctNames(rec: Record) {
    forall i, j :: 0 <= i < j < |rec| ==> rec[i].name != rec[j].name
  }

  /** GetProperties: every property of the record, in declaration order. */
  function AllProperties(rec: Record): (r: seq<nat>)
    ensures |r| == |rec| && Refs(rec, r) && Distinct(r)
    ensures forall i :: i in r <==> 0 <= i < |rec|
  {
    var r := seq(|rec|, k => k);
    IndexMembers(r);
    r
  }

  /** A list holding its own positions holds exactly those positions. */
  lemma IndexMembers(r: seq<nat>)
    requires forall k :: 0 <= k < |r| ==> r[k] == k
    ensures forall i :: i in r <==> 0 <= i < |r|
    ensures Distinct(r)
  {
    forall i | 0 <= i < |r| ensures i in r {
      assert r[i] == i;
    }
  }

  /** The properties in `props` whose name is `name`, in list order. */
  function Named(rec: Record, props: seq<nat>, name: string): (r: seq<nat>)
    requires Refs(rec, props)
    ensures |r| <= |props|
  {
    if props == [] then []
    else (if rec[props[0]].name == name then [props[0]] else []) + Named(rec, props[1..], name)
  }

  /**
   * `properties.SingleOrDefault(p => p.Name == name)`: no match gives None,
   * one match gives it, and more than one raises an exception.
   */
  function SingleOrDefault(rec: Record, props: seq<nat>, name: string): (r: Result<Option<nat>>)
    requires Refs(rec, props)
    ensures r == Ok(None) <==> forall i :: i in props ==> rec[i].name != name
    ensures r.Ok? && r.value.Some? ==> Named(rec, props, name) == [r.value.value]
    ensures r.Ok? && r.value.Some? ==> r.value.value in props && rec[r.value.value].name == name
    ensures r.Err? <==> |Named(rec, props, name)| > 1
    ensures r.Err? ==> r.error == AmbiguousName(name)
  {
    NamedMembers(rec, props, name);
    var matches := Named(rec, props, name);
    assert |matches| > 0 ==> matches[0] in matches;
    if |matches| == 0 then Ok(None)
    else if |matches| == 1 then Ok(Some(matches[0]))
    else Err(AmbiguousName(name))
  }

  /** `List.Remove`: drops the first occurrence of `i`; a list without `i` is left as it is. */
  function Remove(props: seq<nat>, i: nat): (r: seq<nat>)
    ensures i !in props ==> r == props
    ensures i in props ==> |r| == |props| - 1
    ensures forall j :: j in r ==> j in props
    ensures forall j :: j in props && j != i ==> j in r
    ensures Distinct(props) ==> Distinct(r) && i !in r
  {
    if props == [] then []
    else
      DistinctTail(props);
      if props[0] == i then props[1..]
      else [props[0]] + Remove(props[1..], i)
  }

  /**
   * `List.Remove` drops the FIRST occurrence: with `i` first found at `k`,
   * the result is the list before `k` followed by the list after it, in order.
   */
  lemma {:induction false} RemoveFirst(props: seq<nat>, i: nat, k: nat)
    requires k < |props| && props[k] == i && i !in props[..k]
    ensures Remove(props, i) == props[..k] + props[k + 1..]
  {
    if k > 0 {
      assert props[0] != i by { assert props[0] == props[..k][0]; }
      assert i !in props[1..][..k - 1] by { assert props[1..][..k - 1] == props[1..k]; }
      RemoveFirst(props[1..], i, k - 1);
      assert props[1..][..k - 1] == props[1..k] && props[1..][k..] == props[k + 1..];
      assert props[..k] == [props[0]] + props[1..k];
    }
  }

  /** Removing a property keeps every entry a position of the record. */
  lemma RemoveKeepsRefs(rec: Record, props: seq<nat>, i: nat)
    requires Refs(rec, props)
    ensures Refs(rec, Remove(props, i))
  {
    var r := Remove(props, i);
    forall k | 0 <= k < |r| ensures r[k] < |rec| {
      assert r[k] in r;
    }
  }

  /** Removing a property never adds a match for a name. */
  lemma {:induction false} NamedRemove(rec: Record, props: seq<nat>, i: nat, n: string)
    requires Refs(rec, props)
    ensures Refs(rec, Remove(props, i))
    ensures |Named(rec, Remove(props, i), n)| <= |Named(rec, props, n)|
  {
    RemoveKeepsRefs(rec, props, i);
    if props != [] && props[0] != i {
      NamedRemove(rec, props[1..], i, n);
      NamedAppend(rec, [props[0]], Remove(props[1..], i), n);
    }
  }

  /** The properties in `props` whose name is not in `names`, in list order. */
  function Without(rec: Record, props: seq<nat>, names: seq<string>): (r: seq<nat>)
    requires Refs(rec, props)
    ensures |r| <= |props| && Refs(rec, r)
  {
    if props == [] then []
    else
      var tail := Without(rec, props[1..], names);
      if rec[props[0]].name in names then tail else [props[0]] + tail
  }

  /** The first name in `names` that more than one property of `props` carries. */
  function FirstAmbiguous(rec: Record, props: seq<nat>, names: seq<string>): Option<string>
    requires Refs(rec, props)
  {
    if names == [] then None
    else if |Named(rec, props, names[0])| > 1 then Some(names[0])
    else FirstAmbiguous(rec, props, names[1..])
  }

  /**
   * What RemoveIgnoredProperties leaves of `props`: every property whose name
   * is ignored is dropped, unless an ignored name is carried by several
   * properties, which is an error.
   */
  function IgnoredRemoved(rec: Record, props: seq<nat>, ignored: seq<string>): (r: Result<seq<nat>>)
    requires Refs(rec, props)
    ensures r.Ok? ==> Refs(rec, r.value) && (Distinct(props) ==> Distinct(r.value))
    ensures r.Err? ==> r.error.AmbiguousName? && r.error.name in ignored
  {
    FirstAmbiguousMeaning(rec, props, ignored);
    WithoutMembers(rec, props, ignored);
    match FirstAmbiguous(rec, props, ignored)
    case Some(n) => Err(AmbiguousName(n))
    case None => Ok(Without(rec, props, ignored))
  }

  /**
   * RemoveIgnoredProperties: for each ignored name in turn, look the property
   * up with SingleOrDefault and remove it (removing "nothing" when no property
   * has that name).
   */
  method RemoveIgnoredProperties(rec: Record, props: seq<nat>, ignored: seq<string>) returns (r: Result<seq<nat>>)
    requires Refs(rec, props)
    ensures r == IgnoredRemoved(rec, props, ignored)
  {
    var remaining := props;
    NothingToDrop(rec, props, []);
    for i := 0 to |ignored|
      invariant FirstAmbiguous(rec, props, ignored[..i]).None?
      invariant remaining == Without(rec, props, ignored[..i])
    {
      var name := ignored[i];
      var ignoredProperty := SingleOrDefault(rec, remaining, name);
      if ignoredProperty.Err? {
        IgnoreStepAmbiguous(rec, props, ignored, i);
        return Err(ignoredProperty.error);
      }
      match ignoredProperty.value {
        case None =>
          IgnoreStepMissing(rec, props, ignored, i);
        case Some(p) =>
          IgnoreStepSingle(rec, props, ignored, i, p);
          remaining := Remove(remaining, p);
      }
    }
    assert ignored[..|ignored|] == ignored;
    return Ok(remaining);
  }

  /** A round of RemoveIgnoredProperties whose name several remaining properties carry: the whole step fails with it. */
  lemma IgnoreStepAmbiguous(rec: Record, props: seq<nat>, ignored: seq<string>, i: nat)
    requires Refs(rec, props) && i < |ignored|
    requires FirstAmbiguous(rec, props, ignored[..i]).None?
    requires |Named(rec, Without(rec, props, ignored[..i]), ignored[i])| > 1
    ensures IgnoredRemoved(rec, props, ignored) == Err(AmbiguousName(ignored[i]))
  {
    SliceSnoc(ignored, i);
    NamedWithout(rec, props, ignored[..i], ignored[i]);
    FirstAmbiguousSnoc(rec, props, ignored[..i], ignored[i]);
    FirstAmbiguousPrefix(rec, props, ignored, i + 1);
  }

  /** A round of RemoveIgnoredProperties whose name no remaining property carries: nothing is removed. */
  lemma IgnoreStepMissing(rec: Record, props: seq<nat>, ignored: seq<string>, i: nat)
    requires Refs(rec, props) && i < |ignored|
    requires FirstAmbiguous(rec, props, ignored[..i]).None?
    requires forall j :: j in Without(rec, props, ignored[..i]) ==> rec[j].name != ignored[i]
    ensures FirstAmbiguous(rec, props, ignored[..i + 1]).None?
    ensures Without(rec, props, ignored[..i + 1]) == Without(rec, props, ignored[..i])
  {
    var remaining := Without(rec, props, ignored[..i]);
    SliceSnoc(ignored, i);
    FirstAmbiguousMeaning(rec, props, ignored[..i]);
    NoneNamed(rec, remaining, ignored[i]);
    NamedWithout(rec, props, ignored[..i], ignored[i]);
    FirstAmbiguousSnoc(rec, props, ignored[..i], ignored[i]);
    WithoutSnoc(rec, props, ignored[..i], ignored[i]);
    NothingToDrop(rec, remaining, [ignored[i]]);
  }

  /** A round of RemoveIgnoredProperties whose name one remaining property `p` carries: `p` is removed. */
  lemma IgnoreStepSingle(rec: Record, props: seq<nat>, ignored: seq<string>, i: nat, p: nat)
    requires Refs(rec, props) && i < |ignored|
    requires FirstAmbiguous(rec, props, ignored[..i]).None?
    requires Named(rec, Without(rec, props, ignored[..i]), ignored[i]) == [p]
    ensures FirstAmbiguous(rec, props, ignored[..i + 1]).None?
    ensures Without(rec, props, ignored[..i + 1]) == Remove(Without(rec, props, ignored[..i]), p)
  {
    var remaining := Without(rec, props, ignored[..i]);
    SliceSnoc(ignored, i);
    FirstAmbiguousMeaning(rec, props, ignored[..i]);
    NamedWithout(rec, props, ignored[..i], ignored[i]);
    FirstAmbiguousSnoc(rec, props, ignored[..i], ignored[i]);
    WithoutSnoc(rec, props, ignored[..i], ignored[i]);
    RemoveSingleMatch(rec, remaining, ignored[i]);
  }

  // ---- Lemmas ----

  /** The matches for `name` are exactly the listed properties that carry it. */
  lemma {:induction false} NamedMembers(rec: Record, props: seq<nat>, name: string)
    requires Refs(rec, props)
    ensures Refs(rec, Named(rec, props, name))
    ensures forall i :: i in Named(rec, props, name) <==> i in props && rec[i].name == name
  {
    if props != [] {
      NamedMembers(rec, props[1..], name);
      assert forall i :: i in props <==> i == props[0] || i in props[1..];
    }
  }

  /** Dropping the names `names` keeps exactly the listed properties whose name is not among them, and keeps a list without repeats so. */
  lemma {:induction false} WithoutMembers(rec: Record, props: seq<nat>, names: seq<string>)
    requires Refs(rec, props)
    ensures forall i :: i in Without(rec, props, names) <==> i in props && rec[i].name !in names
    ensures Distinct(props) ==> Distinct(Without(rec, props, names))
  {
    if props != [] {
      var tail := Without(rec, props[1..], names);
      DistinctTail(props);
      WithoutMembers(rec, props[1..], names);
      assert forall i :: i in props <==> i == props[0] || i in props[1..];
      DistinctCons(props[0], tail);
    }
  }

  lemma SliceSnoc(s: seq<string>, i: nat)
    requires i < |s|
    ensures s[..i + 1] == s[..i] + [s[i]]
  {
  }

  lemma ConsAppend(a: seq<nat>, b: seq<nat>)
    requires a != []
    ensures (a + b)[0] == a[0] && (a + b)[1..] == a[1..] + b
  {
  }

  lemma DistinctCons(x: nat, t: seq<nat>)
    ensures x !in t && Distinct(t) ==> Distinct([x] + t)
  {
    if x !in t && Distinct(t) {
      forall j, k | 0 <= j < k < |[x] + t| ensures ([x] + t)[j] != ([x] + t)[k] {
        assert ([x] + t)[k] == t[k - 1] && t[k - 1] in t;
      }
    }
  }

  lemma DistinctTail(props: seq<nat>)
    requires props != []
    ensures Distinct(props) ==> props[0] !in props[1..] && Distinct(props[1..])
  {
    if Distinct(props) {
      forall k | 0 <= k < |props[1..]| ensures props[1..][k] != props[0] {
        assert props[1..][k] == props[k + 1];
      }
    }
  }

  /** The ignore step fails exactly when some ignored name is ambiguous; otherwise it keeps exactly the properties not ignored. */
  lemma IgnoredRemovedMeaning(rec: Record, props: seq<nat>, ignored: seq<string>)
    requires Refs(rec, props)
    ensures IgnoredRemoved(rec, props, ignored).Err? <==> exists n :: n in ignored && |Named(rec, props, n)| > 1
    ensures IgnoredRemoved(rec, props, ignored).Err? ==>
      exists n :: n in ignored && IgnoredRemoved(rec, props, ignored).error == AmbiguousName(n)
    ensures IgnoredRemoved(rec, props, ignored).Ok? ==>
      forall i :: i in IgnoredRemoved(rec, props, ignored).value <==> i in props && rec[i].name !in ignored
  {
    FirstAmbiguousMeaning(rec, props, ignored);
    WithoutMembers(rec, props, ignored);
  }

  /** When `p` is the single property named `n`, every other listed property has another name. */
  lemma SingleNamed(rec: Record, props: seq<nat>, n: string, p: nat, i: nat)
    requires Refs(rec, props) && Named(rec, props, n) == [p]
    requires i in props && i != p
    ensures rec[i].name != n
  {
    NamedMembers(rec, props, n);
    assert i !in Named(rec, props, n);
  }

  /** With distinct names, a listed property is the one match for its own name. */
  lemma {:induction false} NamedUnique(rec: Record, props: seq<nat>, p: nat)
    requires Refs(rec, props) && Distinct(props) && DistinctNames(rec) && p in props
    ensures Named(rec, props, rec[p].name) == [p]
  {
    DistinctTail(props);
    if props[0] == p {
      forall j | j in props[1..] ensures rec[j].name != rec[p].name {
        assert j != p;
      }
      NoneNamed(rec, props[1..], rec[p].name);
    } else {
      assert rec[props[0]].name != rec[p].name;
      NamedUnique(rec, props[1..], p);
    }
  }

  /** Ignoring a name that no property in the list carries changes nothing and is no error. */
  lemma IgnoreAbsentName(rec: Record, props: seq<nat>, ignored: seq<string>, n: string)
    requires Refs(rec, props)
    requires forall i :: i in props ==> rec[i].name != n
    ensures IgnoredRemoved(rec, props, ignored + [n]) == IgnoredRemoved(rec, props, ignored)
  {
    NoneNamed(rec, props, n);
    FirstAmbiguousSnoc(rec, props, ignored, n);
    assert FirstAmbiguous(rec, props, ignored + [n]) == FirstAmbiguous(rec, props, ignored);
    WithoutSnoc(rec, props, ignored, n);
    WithoutMembers(rec, props, ignored);
    NothingToDrop(rec, Without(rec, props, ignored), [n]);
    assert Without(rec, props, ignored + [n]) == Without(rec, props, ignored);
  }

  lemma {:induction false} NamedAppend(rec: Record, a: seq<nat>, b: seq<nat>, n: string)
    requires Refs(rec, a) && Refs(rec, b)
    ensures Refs(rec, a + b)
    ensures Named(rec, a + b, n) == Named(rec, a, n) + Named(rec, b, n)
  {
    if a != [] {
      ConsAppend(a, b);
      NamedAppend(rec, a[1..], b, n);
    } else {
      assert a + b == b;
    }
  }

  lemma {:induction false} WithoutAppend(rec: Record, a: seq<nat>, b: seq<nat>, names: seq<string>)
    requires Refs(rec, a) && Refs(rec, b)
    ensures Refs(rec, a + b)
    ensures Without(rec, a + b, names) == Without(rec, a, names) + Without(rec, b, names)
  {
    if a != [] {
      ConsAppend(a, b);
      WithoutAppend(rec, a[1..], b, names);
    } else {
      assert a + b == b;
    }
  }

  /** After dropping the names `names`, a name among them matches nothing and any other name matches as before. */
  lemma {:induction false} NamedWithout(rec: Record, props: seq<nat>, names: seq<string>, n: string)
    requires Refs(rec, props)
    ensures Named(rec, Without(rec, props, names), n) == if n in names then [] else Named(rec, props, n)
  {
    if props != [] {
      var head := if rec[props[0]].name in names then [] else [props[0]];
      NamedWithout(rec, props[1..], names, n);
      NamedAppend(rec, head, Without(rec, props[1..], names), n);
    }
  }

  lemma {:induction false} WithoutSnoc(rec: Record, props: seq<nat>, names: seq<string>, n: string)
    requires Refs(rec, props)
    ensures Without(rec, props, names + [n]) == Without(rec, Without(rec, props, names), [n])
  {
    if props != [] {
      var head := if rec[props[0]].name in names then [] else [props[0]];
      WithoutSnoc(rec, props[1..], names, n);
      WithoutAppend(rec, head, Without(rec, props[1..], names), [n]);
    }
  }

  lemma {:induction false} NoneNamed(rec: Record, props: seq<nat>, n: string)
    requires Refs(rec, props)
    requires forall i :: i in props ==> rec[i].name != n
    ensures Named(rec, props, n) == []
  {
    if props != [] {
      assert props[0] in props;
      NoneNamed(rec, props[1..], n);
    }
  }

  /** Dropping names no listed property carries leaves the list as it is. */
  lemma {:induction false} NothingToDrop(rec: Record, props: seq<nat>, names: seq<string>)
    requires Refs(rec, props)
    requires forall i :: i in props ==> rec[i].name !in names
    ensures Without(rec, props, names) == props
  {
    if props != [] {
      NothingToDrop(rec, props[1..], names);
    }
  }

  /** Removing the one property named `n` is dropping the name `n`. */
  lemma {:induction false} RemoveSingleMatch(rec: Record, props: seq<nat>, n: string)
    requires Refs(rec, props)
    requires |Named(rec, props, n)| == 1
    ensures Remove(props, Named(rec, props, n)[0]) == Without(rec, props, [n])
  {
    var m := Named(rec, props, n)[0];
    NamedMembers(rec, props[1..], n);
    if rec[props[0]].name == n {
      assert Named(rec, props, n) == [props[0]] + Named(rec, props[1..], n);
      assert Named(rec, props[1..], n) == [];
      assert forall i :: i in props[1..] ==> i !in Named(rec, props[1..], n);
      NothingToDrop(rec, props[1..], [n]);
    } else {
      assert Named(rec, props, n) == Named(rec, props[1..], n);
      assert m in Named(rec, props[1..], n);
      RemoveSingleMatch(rec, props[1..], n);
    }
  }

  /** FirstAmbiguous finds nothing exactly when no name is ambiguous, and what it finds is an ambiguous name. */
  lemma {:induction false} FirstAmbiguousMeaning(rec: Record, props: seq<nat>, names: seq<string>)
    requires Refs(rec, props)
    ensures FirstAmbiguous(rec, props, names).None? <==> forall n :: n in names ==> |Named(rec, props, n)| <= 1
    ensures FirstAmbiguous(rec, props, names).Some? ==>
      FirstAmbiguous(rec, props, names).value in names && |Named(rec, props, FirstAmbiguous(rec, props, names).value)| > 1
  {
    if names != [] {
      FirstAmbiguousMeaning(rec, props, names[1..]);
      assert names[0] in names;
      assert forall n :: n in names ==> n == names[0] || n in names[1..];
    }
  }

  lemma {:induction false} FirstAmbiguousSnoc(rec: Record, props: seq<nat>, names: seq<string>, n: string)
    requires Refs(rec, props)
    ensures FirstAmbiguous(rec, props, names + [n]) ==
      if FirstAmbiguous(rec, props, names).Some? then FirstAmbiguous(rec, props, names)
      else if |Named(rec, props, n)| > 1 then Some(n) else None
  {
    if names == [] {
      assert names + [n] == [n];
      assert [n][1..] == [];
    } else {
      assert (names + [n])[0] == names[0];
      assert (names + [n])[1..] == names[1..] + [n];
      FirstAmbiguousSnoc(rec, props, names[1..], n);
    }
  }

  lemma {:induction false} FirstAmbiguousPrefix(rec: Record, props: seq<nat>, names: seq<string>, k: nat)
    requires Refs(rec, props)
    requires k <= |names| && FirstAmbiguous(rec, props, names[..k]).Some?
    ensures FirstAmbiguous(rec, props, names) == FirstAmbiguous(rec, props, names[..k])
    decreases |names| - k
  {
    if k < |names| {
      assert names[..k + 1] == names[..k] + [names[k]];
      FirstAmbiguousSnoc(rec, props, names[..k], names[k]);
      FirstAmbiguousPrefix(rec, props, names, k + 1);
    } else {
      assert names[..k] == names;
    }
  }
}
