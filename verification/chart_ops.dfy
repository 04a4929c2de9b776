/** The list operations behind the three chart mutations: finding records by
    `id`, the shallow `array_merge` of an update, and the filter of a removal.
    The chart is a flat, ordered `seq<Node>`; hierarchy lives only in `pid`. */
module ChartOps {
  import opened Json

  /** `$node['id']`: the record's id, or `null` when the record has none. */
  function IdOf(n: Node): Value
  {
    if "id" in n then n["id"] else Null
  }

  /** The record carries the given id. Ids are compared as values; a record
      without an id is never matched by a non-null id. */
  predicate HasId(n: Node, id: Value)
  {
    IdOf(n) == id
  }

  /** Number of records that carry the id. */
  function Count(nodes: seq<Node>, id: Value): (c: nat)
    ensures c <= |nodes|
    ensures c == 0 <==> forall j :: 0 <= j < |nodes| ==> !HasId(nodes[j], id)
  {
    if |nodes| == 0 then 0
    else (if HasId(nodes[0], id) then 1 else 0) + Count(nodes[1..], id)
  }

  /** Appending one record adds one to the count exactly when it matches;
      nothing is deduplicated. */
  lemma {:induction false} CountAppend(nodes: seq<Node>, n: Node, id: Value)
    ensures Count(nodes + [n], id) == Count(nodes, id) + (if HasId(n, id) then 1 else 0)
    decreases |nodes|
  {
    if |nodes| == 0 {
      assert nodes + [n] == [n];
    } else {
      assert (nodes + [n])[1..] == nodes[1..] + [n];
      CountAppend(nodes[1..], n, id);
    }
  }

  /** `array_merge($old, $new)` on string-keyed arrays: every key of the new
      record takes the new value, every other key keeps the old one, and no
      key appears that was in neither. */
  function Merge(base: Node, fields: Node): (r: Node)
    ensures r.Keys == base.Keys + fields.Keys
    ensures forall k :: k in fields ==> r[k] == fields[k]
    ensures forall k :: k in base && k !in fields ==> r[k] == base[k]
  {
    base + fields
  }

  /** Merging the same fields a second time changes nothing. */
  lemma MergeIdempotent(base: Node, fields: Node)
    ensures Merge(Merge(base, fields), fields) == Merge(base, fields)
  {
  }

  /** Position `i` holds the first record that carries the id. */
  predicate IsFirstMatch(nodes: seq<Node>, id: Value, i: int)
  {
    0 <= i < |nodes| && HasId(nodes[i], id) && forall j :: 0 <= j < i ==> !HasId(nodes[j], id)
  }

  /** Index of the first record carrying the id, scanning in list order. */
  function FirstMatch(nodes: seq<Node>, id: Value): (r: Option<nat>)
    ensures r.Some? ==> IsFirstMatch(nodes, id, r.value)
    ensures r.None? <==> Count(nodes, id) == 0
  {
    if |nodes| == 0 then None
    else if HasId(nodes[0], id) then Some(0)
    else match FirstMatch(nodes[1..], id)
      case None => None
      case Some(i) => Some(i + 1)
  }

  /** The first match is unique. */
  lemma FirstMatchUnique(nodes: seq<Node>, id: Value, i: int, k: int)
    requires IsFirstMatch(nodes, id, i) && IsFirstMatch(nodes, id, k)
    ensures i == k
  {
  }

  /** The update loop: merge the patch into the first record whose id equals
      the patch's id; `None` when no record matches. Only that one record
      changes; length and order are kept. */
  function UpdateFirst(nodes: seq<Node>, patch: Node): (r: Option<seq<Node>>)
    ensures r.None? <==> Count(nodes, IdOf(patch)) == 0
    ensures r.Some? ==>
      && |r.value| == |nodes|
      && exists i :: IsFirstMatch(nodes, IdOf(patch), i)
                     && r.value[i] == Merge(nodes[i], patch)
                     && forall j :: 0 <= j < |nodes| && j != i ==> r.value[j] == nodes[j]
  {
    match FirstMatch(nodes, IdOf(patch))
    case None => None
    case Some(i) => Some(nodes[i := Merge(nodes[i], patch)])
  }

  /** Sending the same update twice leaves the chart as the first one did:
      the merged record still carries the id and is still the first match. */
  lemma UpdateFirstIdempotent(nodes: seq<Node>, patch: Node)
    requires UpdateFirst(nodes, patch).Some?
    ensures UpdateFirst(UpdateFirst(nodes, patch).value, patch) == UpdateFirst(nodes, patch)
  {
    var id := IdOf(patch);
    var i :| IsFirstMatch(nodes, id, i);
    var once := UpdateFirst(nodes, patch).value;
    assert once == nodes[i := Merge(nodes[i], patch)] by {
      var k := FirstMatch(nodes, id).value;
      FirstMatchUnique(nodes, id, i, k);
    }
    assert "id" in patch ==> IdOf(once[i]) == id;
    assert IsFirstMatch(once, id, i) by {
      assert forall j :: 0 <= j < i ==> once[j] == nodes[j];
    }
    var k2 := FirstMatch(once, id).value;
    FirstMatchUnique(once, id, i, k2);
    MergeIdempotent(nodes[i], patch);
    assert once[i := Merge(once[i], patch)] == once;
  }

  /** The filter's verdict on one record: kept unless it carries the id. */
  function Keep(n: Node, id: Value): seq<Node>
  {
    if HasId(n, id) then [] else [n]
  }

  /** `array_values(array_filter(...))`: the records that do not carry the
      id, in their original relative order. */
  function Without(nodes: seq<Node>, id: Value): (r: seq<Node>)
    ensures |r| == |nodes| - Count(nodes, id)
    ensures forall j :: 0 <= j < |r| ==> !HasId(r[j], id)
  {
    if |nodes| == 0 then []
    else Keep(nodes[0], id) + Without(nodes[1..], id)
  }

  /** When no record carries the id, the filter returns the list unchanged. */
  lemma {:induction false} WithoutNoMatch(nodes: seq<Node>, id: Value)
    requires Count(nodes, id) == 0
    ensures Without(nodes, id) == nodes
    decreases |nodes|
  {
    if |nodes| > 0 {
      WithoutNoMatch(nodes[1..], id);
    }
  }

  /** A record survives the filter exactly when it was in the list and does
      not carry the id; in particular removal does not cascade to records
      whose `pid` names the removed id. */
  lemma {:induction false} WithoutMembers(nodes: seq<Node>, id: Value, n: Node)
    ensures n in Without(nodes, id) <==> n in nodes && !HasId(n, id)
    decreases |nodes|
  {
    if |nodes| > 0 {
      WithoutMembers(nodes[1..], id, n);
      assert nodes == [nodes[0]] + nodes[1..];
    }
  }

  /** Filtering commutes with concatenation, so survivors keep their order. */
  lemma {:induction false} WithoutAppend(a: seq<Node>, b: seq<Node>, id: Value)
    ensures Without(a + b, id) == Without(a, id) + Without(b, id)
    decreases |a|
  {
    if |a| == 0 {
      assert a + b == b;
    } else {
      assert (a + b)[0] == a[0];
      assert (a + b)[1..] == a[1..] + b;
      WithoutAppend(a[1..], b, id);
    }
  }

  /** Filtering a list extended by one record extends the survivors by that
      record exactly when it does not carry the id. */
  lemma WithoutSnoc(a: seq<Node>, n: Node, id: Value)
    ensures Without(a + [n], id) == Without(a, id) + Keep(n, id)
  {
    WithoutAppend(a, [n], id);
    assert [n][1..] == [];
  }

  /** One step of the filtering loop: the survivors of a prefix one record
      longer. */
  lemma WithoutPrefixStep(nodes: seq<Node>, i: nat, id: Value)
    requires i < |nodes|
    ensures Without(nodes[..i + 1], id) == Without(nodes[..i], id) + Keep(nodes[i], id)
  {
    assert nodes[..i + 1] == nodes[..i] + [nodes[i]];
    WithoutSnoc(nodes[..i], nodes[i], id);
  }

  /** Nothing that survives a removal carries the removed id, so filtering
      again removes nothing. */
  lemma WithoutLeavesNoMatch(nodes: seq<Node>, id: Value)
    ensures Count(Without(nodes, id), id) == 0
    ensures Without(Without(nodes, id), id) == Without(nodes, id)
  {
    WithoutNoMatch(Without(nodes, id), id);
  }

  /** The foreach-by-reference of the update branch, as a loop: stop at the
      first record with the patch's id and merge into it. */
  method MergeIntoFirst(nodes: seq<Node>, patch: Node) returns (result: seq<Node>, found: bool)
    ensures found <==> exists j :: 0 <= j < |nodes| && HasId(nodes[j], IdOf(patch))
    ensures found ==> UpdateFirst(nodes, patch) == Some(result)
    ensures !found ==> result == nodes
  {
    var id := IdOf(patch);
    result := nodes;
    found := false;
    var i := 0;
    while i < |nodes|
      invariant 0 <= i <= |nodes|
      invariant forall j :: 0 <= j < i ==> !HasId(nodes[j], id)
    {
      if HasId(nodes[i], id) {
        assert IsFirstMatch(nodes, id, i);
        FirstMatchUnique(nodes, id, i, FirstMatch(nodes, id).value);
        result := nodes[i := Merge(nodes[i], patch)];
        found := true;
        return;
      }
      i := i + 1;
    }
  }

  /** The filter of the remove branch, as a loop over the list. */
  method FilterOut(nodes: seq<Node>, id: Value) returns (kept: seq<Node>)
    ensures kept == Without(nodes, id)
  {
    kept := [];
    var i := 0;
    while i < |nodes|
      invariant 0 <= i <= |nodes|
      invariant kept == Without(nodes[..i], id)
    {
      WithoutPrefixStep(nodes, i, id);
      var n := nodes[i];
      if !HasId(n, id) {
        kept := kept + [n];
      }
      i := i + 1;
    }
    assert nodes[..|nodes|] == nodes;
  }
}
