/** `AbstractBasicBot._collapse_connections` and its inner `_recurse`
    (`ibots/base.py`): GraphQL connection wrappers (`edges`, `node`) are flattened
    and every key is put into snake case. */
module Collapse {
  import opened Errors
  import opened Json
  import opened Utils

  /** The shape `_recurse` always produces: every dict has distinct keys without
      upper-case letters. */
  predicate Normalized(x: Json)
  {
    match x
    case List(items) => forall i | 0 <= i < |items| :: Normalized(items[i])
    case Obj(fields) =>
      && UniqueKeys(fields)
      && forall i | 0 <= i < |fields| :: NoUpper(fields[i].key) && Normalized(fields[i].value)
    case _ => true
  }

  /** No dict anywhere in `x` holds a connection wrapper key. */
  predicate NoWrappers(x: Json)
  {
    match x
    case List(items) => forall i | 0 <= i < |items| :: NoWrappers(items[i])
    case Obj(fields) =>
      && !HasKey(fields, "edges") && !HasKey(fields, "node")
      && forall i | 0 <= i < |fields| :: NoWrappers(fields[i].value)
    case _ => true
  }

  /** Renaming already collapsed values keeps them collapsed. */
  lemma RekeyNormalized(values: Dict)
    requires forall i | 0 <= i < |values| :: Normalized(values[i].value)
    ensures Normalized(Obj(Rekey(values, SnakeCase)))
  {
    var r := Rekey(values, SnakeCase);
    forall i | 0 <= i < |r| ensures NoUpper(r[i].key) && Normalized(r[i].value) {
      var j := RekeyFrom(values, SnakeCase, i);
    }
  }

  /** `_recurse(x)` */
  function Recurse(x: Json): Json
    decreases x, 1
  {
    match x
    case List(items) =>
      List(seq(|items|, i requires 0 <= i < |items| => Recurse(items[i])))
    case Obj(fields) =>
      if HasKey(fields, "edges") then Recurse(fields[IndexOf(fields, "edges")].value)
      else if HasKey(fields, "node") then Recurse(fields[IndexOf(fields, "node")].value)
      else
        Obj(Rekey(CollapseValues(fields), SnakeCase))
    case _ => x
  }

  /** `_recurse(obj[x]) for x in obj`: each value collapsed, under its original key. */
  function CollapseValues(fields: Dict): (r: Dict)
    ensures |r| == |fields|
    ensures forall i | 0 <= i < |fields| :: r[i] == Field(fields[i].key, Recurse(fields[i].value))
    decreases fields, 0
  {
    if fields == [] then []
    else [Field(fields[0].key, Recurse(fields[0].value))] + CollapseValues(fields[1..])
  }

  /** Whatever the input, every dict in the result has distinct keys without upper-case
      letters, at every depth. */
  lemma {:induction false} RecurseNormalized(x: Json)
    ensures Normalized(Recurse(x))
    decreases x
  {
    match x
    case List(items) =>
      forall i | 0 <= i < |items| ensures Normalized(Recurse(items[i])) {
        RecurseNormalized(items[i]);
      }
    case Obj(fields) =>
      if HasKey(fields, "edges") {
        RecurseNormalized(fields[IndexOf(fields, "edges")].value);
      } else if HasKey(fields, "node") {
        RecurseNormalized(fields[IndexOf(fields, "node")].value);
      } else {
        var values := CollapseValues(fields);
        forall i | 0 <= i < |values| ensures Normalized(values[i].value) {
          RecurseNormalized(fields[i].value);
        }
        RekeyNormalized(values);
      }
    case _ =>
  }

  /** `_collapse_connections(result)`: a result of exactly one entry, collapsed, and
      the value under its (only) key. `utils.first_item` is called at its default
      depth 1, where `FirstItemAt` equals the code as written (`FirstItemAtDepth`). */
  function CollapseConnections(result: Json): Result<Json>
  {
    match Len(result)
    case None => Err(TypeError)
    case Some(n) => if n != 1 then Err(AssertionError) else FirstItemAt(Recurse(result), 1)
  }

  // ---------------------------------------------------------------------------
  // Properties

  /** Scalars pass through; lists are collapsed element by element, in order. */
  lemma RecurseScalarsAndLists(x: Json)
    ensures !x.List? && !x.Obj? ==> Recurse(x) == x
    ensures x.List? ==> (Recurse(x).List? && |Recurse(x).items| == |x.items|
                         && forall i | 0 <= i < |x.items| :: Recurse(x).items[i] == Recurse(x.items[i]))
  {
  }

  /** A dict holding `edges` is replaced by the collapse of that value; every other
      entry, `node` included, is dropped. */
  lemma EdgesWin(fields: Dict, others: Dict)
    requires HasKey(fields, "edges") && HasKey(others, "edges")
    requires Get(fields, "edges") == Get(others, "edges")
    ensures Recurse(Obj(fields)) == Recurse(Obj(others)) == Recurse(Get(fields, "edges"))
  {
  }

  /** Without `edges`, a dict holding `node` is replaced by the collapse of that value. */
  lemma NodeUnwraps(fields: Dict, others: Dict)
    requires !HasKey(fields, "edges") && HasKey(fields, "node")
    requires !HasKey(others, "edges") && HasKey(others, "node")
    requires Get(fields, "node") == Get(others, "node")
    ensures Recurse(Obj(fields)) == Recurse(Obj(others)) == Recurse(Get(fields, "node"))
  {
  }

  /** Any other dict keeps exactly the snake-case forms of its keys. */
  lemma DictKeys(fields: Dict)
    requires !HasKey(fields, "edges") && !HasKey(fields, "node")
    ensures Recurse(Obj(fields)).Obj?
    ensures KeySet(Recurse(Obj(fields)).fields) == set i | 0 <= i < |fields| :: SnakeCase(fields[i].key)
  {
    var values := CollapseValues(fields);
    RekeyKeys(values, SnakeCase);
    assert forall i | 0 <= i < |fields| :: values[i].key == fields[i].key;
    assert (set i | 0 <= i < |values| :: SnakeCase(values[i].key))
        == (set i | 0 <= i < |fields| :: SnakeCase(fields[i].key));
  }

  /** When the snake-case forms of the keys are distinct (as for camel-case keys), the
      dict keeps its order and every entry becomes its renamed, collapsed self. */
  lemma DictRenamed(fields: Dict)
    requires !HasKey(fields, "edges") && !HasKey(fields, "node")
    requires forall i, j | 0 <= i < j < |fields| :: SnakeCase(fields[i].key) != SnakeCase(fields[j].key)
    ensures Recurse(Obj(fields)).Obj? && |Recurse(Obj(fields)).fields| == |fields|
    ensures forall i | 0 <= i < |fields| ::
      Recurse(Obj(fields)).fields[i] == Field(SnakeCase(fields[i].key), Recurse(fields[i].value))
  {
    var values := CollapseValues(fields);
    assert Recurse(Obj(fields)) == Obj(Rekey(values, SnakeCase));
    assert forall i | 0 <= i < |values| :: values[i].key == fields[i].key;
    RekeyInjective(values, SnakeCase);
  }

  /** One GraphQL connection `{edges: [{node: n0, ...}, {node: n1, ...}, ...], ...}`
      becomes the list of the collapsed nodes. */
  lemma ConnectionToList(fields: Dict, nodes: seq<Json>)
    requires HasKey(fields, "edges")
    requires Get(fields, "edges").List? && |Get(fields, "edges").items| == |nodes|
    requires forall i | 0 <= i < |nodes| ::
      var edge := Get(fields, "edges").items[i];
      && edge.Obj? && !HasKey(edge.fields, "edges") && HasKey(edge.fields, "node")
      && Get(edge.fields, "node") == nodes[i]
    ensures Recurse(Obj(fields)) == List(seq(|nodes|, i requires 0 <= i < |nodes| => Recurse(nodes[i])))
  {
    var edges := Get(fields, "edges").items;
    assert Recurse(Obj(fields)) == Recurse(List(edges));
    forall i | 0 <= i < |nodes| ensures Recurse(edges[i]) == Recurse(nodes[i]) {
      var edge := edges[i];
      assert Recurse(edge) == Recurse(Get(edge.fields, "node"));
    }
  }

  /** A collapsed value without wrapper keys is left as it is. */
  lemma {:induction false} RecurseFixes(y: Json)
    requires Normalized(y) && NoWrappers(y)
    ensures Recurse(y) == y
  {
    match y
    case List(items) =>
      forall i | 0 <= i < |items| ensures Recurse(items[i]) == items[i] {
        RecurseFixes(items[i]);
      }
    case Obj(fields) =>
      forall i | 0 <= i < |fields|
        ensures Recurse(fields[i].value) == fields[i].value && SnakeCase(fields[i].key) == fields[i].key
      {
        RecurseFixes(fields[i].value);
        SnakeCaseIdentity(fields[i].key);
      }
      FieldsFixed(fields);
    case _ =>
  }

  /** A dict whose values and keys are already collapsed is left as it is. */
  lemma FieldsFixed(fields: Dict)
    requires UniqueKeys(fields) && !HasKey(fields, "edges") && !HasKey(fields, "node")
    requires forall i | 0 <= i < |fields| ::
      Recurse(fields[i].value) == fields[i].value && SnakeCase(fields[i].key) == fields[i].key
    ensures Recurse(Obj(fields)) == Obj(fields)
  {
    var values := CollapseValues(fields);
    assert values == fields by {
      forall i | 0 <= i < |fields| ensures values[i] == fields[i] {
      }
    }
    RekeyInjective(fields, SnakeCase);
    var r := Rekey(fields, SnakeCase);
    assert r == fields by {
      forall i | 0 <= i < |fields| ensures r[i] == fields[i] {
      }
    }
  }

  /** Collapsing twice is collapsing once, as long as the first pass left no wrapper key
      (a key such as `Node` only becomes one by being renamed). */
  lemma RecurseIdempotent(x: Json)
    requires NoWrappers(Recurse(x))
    ensures Recurse(Recurse(x)) == Recurse(x)
  {
    RecurseNormalized(x);
    RecurseFixes(Recurse(x));
  }

  /** ... and without that condition the second pass can change the result. */
  lemma RecurseNotIdempotent()
    ensures var x := Obj([Field("a", Obj([Field("Node", Int(1))]))]);
      Recurse(x) == Obj([Field("a", Obj([Field("node", Int(1))]))])
      && Recurse(Recurse(x)) == Obj([Field("a", Int(1))])
  {
    FirstPassMakesWrapper();
    SecondPassUnwraps();
  }

  lemma FirstPassMakesWrapper()
    ensures Recurse(Obj([Field("a", Obj([Field("Node", Int(1))]))])) == Obj([Field("a", Obj([Field("node", Int(1))]))])
  {
    assert Recurse(Obj([Field("Node", Int(1))])) == Obj([Field("node", Int(1))]) by {
      SingleRenamed("Node", Int(1));
      SnakeCaseNode();
    }
    SingleRenamed("a", Obj([Field("Node", Int(1))]));
    SnakeCaseIdentity("a");
  }

  lemma SecondPassUnwraps()
    ensures Recurse(Obj([Field("a", Obj([Field("node", Int(1))]))])) == Obj([Field("a", Int(1))])
  {
    assert Recurse(Obj([Field("node", Int(1))])) == Int(1) by {
      assert HasKey([Field("node", Int(1))], "node");
    }
    SingleRenamed("a", Obj([Field("node", Int(1))]));
    SnakeCaseIdentity("a");
  }

  lemma SnakeCaseNode()
    ensures SnakeCase("Node") == "node"
  {
    assert MarkWords("Node") == "Node" by {
      MarkTailIdentity("ode");
    }
    assert LowerAll("Node") == "node" by {
      LowerAllIdentity("ode");
    }
  }

  /** A one-entry dict that is not a wrapper is renamed and collapsed. */
  lemma SingleRenamed(k: string, v: Json)
    requires k != "edges" && k != "node"
    ensures Recurse(Obj([Field(k, v)])) == Obj([Field(SnakeCase(k), Recurse(v))])
  {
    var fields := [Field(k, v)];
    assert !HasKey(fields, "edges") && !HasKey(fields, "node");
    DictRenamed(fields);
  }

  /** A result with one top-level entry collapses to that entry's collapsed value,
      provided the entry is not itself a wrapper. */
  lemma CollapseSingle(k: string, v: Json)
    requires k != "edges" && k != "node"
    ensures CollapseConnections(Obj([Field(k, v)])) == Ok(Recurse(v))
  {
    SingleRenamed(k, v);
    FirstItemLeast([Field(SnakeCase(k), Recurse(v))], 0);
  }

  /** A result that does not have exactly one entry is rejected by the assertion. */
  lemma CollapseRejects(result: Json)
    ensures Len(result).None? ==> CollapseConnections(result) == Err(TypeError)
    ensures Len(result).Some? && Len(result).value != 1 ==> CollapseConnections(result) == Err(AssertionError)
  {
  }
}
