/** JSON values as the GraphQL client hands them over, and Python's insertion-ordered
    `dict`, on which both the results and the keyword arguments are built. */
module Json {

  datatype Json =
    | Null
    | Bool(b: bool)
    | Int(i: int)
    | Str(s: string)
    | List(items: seq<Json>)
    | Obj(fields: Dict)

  datatype Field = Field(key: string, value: Json)

  /** A Python dict: its entries in insertion order. */
  type Dict = seq<Field>

  /** `list(d.keys())` */
  function Keys(d: Dict): (ks: seq<string>)
    ensures |ks| == |d| && forall i | 0 <= i < |d| :: ks[i] == d[i].key
  {
    seq(|d|, i requires 0 <= i < |d| => d[i].key)
  }

  function KeySet(d: Dict): set<string>
  {
    set k | k in Keys(d)
  }

  /** `k in d` */
  predicate HasKey(d: Dict, k: string)
  {
    k in Keys(d)
  }

  /** What every real Python dict satisfies: no key occurs twice. */
  predicate UniqueKeys(d: Dict)
  {
    forall i, j | 0 <= i < j < |d| :: d[i].key != d[j].key
  }

  /** The first position of `k` in `ks`. */
  function Position(ks: seq<string>, k: string): (i: nat)
    requires k in ks
    ensures i < |ks| && ks[i] == k
    ensures forall j | 0 <= j < i :: ks[j] != k
  {
    if ks[0] == k then 0 else 1 + Position(ks[1..], k)
  }

  lemma {:induction false} PositionAppend(ks: seq<string>, x: string, k: string)
    requires k in ks
    ensures Position(ks + [x], k) == Position(ks, k)
  {
    if ks[0] != k {
      assert (ks + [x])[1..] == ks[1..] + [x];
      PositionAppend(ks[1..], x, k);
    }
  }

  /** The position of `k` in `d`. */
  function IndexOf(d: Dict, k: string): (i: nat)
    requires HasKey(d, k)
    ensures i < |d| && d[i].key == k
    ensures forall j | 0 <= j < i :: d[j].key != k
  {
    Position(Keys(d), k)
  }

  /** `d[k]` */
  function Get(d: Dict, k: string): Json
    requires HasKey(d, k)
  {
    d[IndexOf(d, k)].value
  }

  /** Overwriting a value keeps the keys. */
  lemma KeysUpdate(d: Dict, i: nat, k: string, v: Json)
    requires i < |d| && d[i].key == k
    ensures Keys(d[i := Field(k, v)]) == Keys(d)
  {
  }

  /** Appending an entry appends its key. */
  lemma KeysAppend(d: Dict, k: string, v: Json)
    ensures Keys(d + [Field(k, v)]) == Keys(d) + [k]
  {
  }

  /** The dict after `d[k] = v`: an existing key keeps its place and takes the new
      value, a new key is appended. */
  function Put(d: Dict, k: string, v: Json): (r: Dict)
    ensures HasKey(r, k) && Get(r, k) == v
    ensures |r| == if HasKey(d, k) then |d| else |d| + 1
    ensures UniqueKeys(d) ==> UniqueKeys(r)
  {
    if HasKey(d, k) then
      var r := d[IndexOf(d, k) := Field(k, v)];
      KeysUpdate(d, IndexOf(d, k), k, v);
      r
    else
      var r := d + [Field(k, v)];
      KeysAppend(d, k, v);
      r
  }

  /** `d[k] = v` leaves every other key where it was, with its value. */
  lemma PutOther(d: Dict, k: string, v: Json, other: string)
    requires other != k
    ensures HasKey(Put(d, k, v), other) == HasKey(d, other)
    ensures HasKey(d, other) ==> Get(Put(d, k, v), other) == Get(d, other)
  {
    var r := Put(d, k, v);
    if HasKey(d, k) {
      KeysUpdate(d, IndexOf(d, k), k, v);
    } else {
      KeysAppend(d, k, v);
      if HasKey(d, other) {
        PositionAppend(Keys(d), k, other);
      }
    }
  }

  /** `d[k] = v` adds `k` to the keys and nothing else. */
  lemma PutKeys(d: Dict, k: string, v: Json)
    ensures KeySet(Put(d, k, v)) == KeySet(d) + {k}
  {
    var r := Put(d, k, v);
    if HasKey(d, k) {
      KeysUpdate(d, IndexOf(d, k), k, v);
    } else {
      KeysAppend(d, k, v);
    }
  }

  lemma PutAbsent(d: Dict, k: string, v: Json)
    requires !HasKey(d, k)
    ensures Put(d, k, v) == d + [Field(k, v)]
  {
  }

  /** The dict comprehension `{f(x): d[x] for x in d}`: the entries are stored one after
      the other, so where `f` maps two keys together the later value wins. */
  function Rekey(d: Dict, f: string -> string): (r: Dict)
    ensures UniqueKeys(r) && |r| <= |d|
  {
    if d == [] then []
    else
      var n := |d| - 1;
      Put(Rekey(d[..n], f), f(d[n].key), d[n].value)
  }

  /** Every renamed key is present in the result. */
  lemma {:induction false} RekeyHas(d: Dict, f: string -> string, i: nat)
    requires i < |d|
    ensures HasKey(Rekey(d, f), f(d[i].key))
  {
    var n := |d| - 1;
    if i < n && f(d[i].key) != f(d[n].key) {
      RekeyHas(d[..n], f, i);
      assert d[..n][i] == d[i];
      PutOther(Rekey(d[..n], f), f(d[n].key), d[n].value, f(d[i].key));
    }
  }

  /** Each entry after `d[k] = v` is the new one or the entry that was there. */
  lemma PutAt(d: Dict, k: string, v: Json, i: nat)
    requires i < |Put(d, k, v)|
    ensures Put(d, k, v)[i] == Field(k, v) || (i < |d| && Put(d, k, v)[i] == d[i])
  {
  }

  /** Every entry of the comprehension's result comes from an entry of the input. */
  lemma {:induction false} RekeyFrom(d: Dict, f: string -> string, i: nat) returns (j: nat)
    requires i < |Rekey(d, f)|
    ensures j < |d| && Rekey(d, f)[i] == Field(f(d[j].key), d[j].value)
  {
    var n := |d| - 1;
    var init := Rekey(d[..n], f);
    var k := f(d[n].key);
    assert Rekey(d, f) == Put(init, k, d[n].value);
    PutAt(init, k, d[n].value, i);
    if Put(init, k, d[n].value)[i] == Field(k, d[n].value) {
      j := n;
    } else {
      j := RekeyFrom(d[..n], f, i);
      assert d[..n][j] == d[j];
    }
  }

  /** The value stored under `f(k)` is that of the LAST key that `f` sends to `f(k)`. */
  lemma {:induction false} RekeyLastWins(d: Dict, f: string -> string, i: nat)
    requires i < |d|
    requires forall j | i < j < |d| :: f(d[j].key) != f(d[i].key)
    ensures HasKey(Rekey(d, f), f(d[i].key)) && Get(Rekey(d, f), f(d[i].key)) == d[i].value
  {
    var n := |d| - 1;
    if i < n {
      assert forall j | i < j < n :: d[..n][j] == d[j];
      RekeyLastWins(d[..n], f, i);
      assert d[..n][i] == d[i];
      PutOther(Rekey(d[..n], f), f(d[n].key), d[n].value, f(d[i].key));
    }
  }

  /** Where `f` keeps the keys apart, the comprehension renames each entry in place. */
  lemma {:induction false} RekeyInjective(d: Dict, f: string -> string)
    requires forall i, j | 0 <= i < j < |d| :: f(d[i].key) != f(d[j].key)
    ensures |Rekey(d, f)| == |d|
    ensures forall i | 0 <= i < |d| :: Rekey(d, f)[i] == Field(f(d[i].key), d[i].value)
  {
    if d != [] {
      var n := |d| - 1;
      var k := f(d[n].key);
      var init := Rekey(d[..n], f);
      assert |init| == n && forall i | 0 <= i < n :: init[i] == Field(f(d[i].key), d[i].value) by {
        assert forall i | 0 <= i < n :: d[..n][i] == d[i];
        RekeyInjective(d[..n], f);
      }
      var r := Rekey(d, f);
      assert r == init + [Field(k, d[n].value)] by {
        assert forall j | 0 <= j < n :: init[j].key != k;
        PutAbsent(init, k, d[n].value);
      }
      forall i | 0 <= i < |d| ensures r[i] == Field(f(d[i].key), d[i].value) {
        if i < n {
          assert r[i] == init[i];
        }
      }
    }
  }

  /** The keys of the comprehension's result are exactly the images of the input keys. */
  lemma RekeyKeys(d: Dict, f: string -> string)
    ensures KeySet(Rekey(d, f)) == set i | 0 <= i < |d| :: f(d[i].key)
  {
    var r := Rekey(d, f);
    forall k | k in KeySet(r) ensures k in set i | 0 <= i < |d| :: f(d[i].key) {
      var j := RekeyFrom(d, f, IndexOf(r, k));
    }
    forall i | 0 <= i < |d| ensures f(d[i].key) in KeySet(r) {
      RekeyHas(d, f, i);
    }
  }
}
