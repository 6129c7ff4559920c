/** The JSON value type of the scan engine: null, booleans, 64-bit integers, doubles,
    strings, arrays, and objects whose members are kept in ascending key order. */
module JsonValue {
  import opened Common

  type Int64 = i: int | -0x8000_0000_0000_0000 <= i < 0x8000_0000_0000_0000

  /** One `std::map` node. */
  datatype Member = Member(key: string, value: Value)

  /** A `std::map<std::string, Value>` in iteration order. */
  type Object = seq<Member>

  /** A C++ `char` is a Dafny `char`; a double is known only by its bit pattern. */
  datatype Value =
    | Null
    | Bool(b: bool)
    | Int(i: Int64)
    | Double(bits: nat)
    | Str(s: string)
    | Arr(items: seq<Value>)
    | Obj(members: Object)

  /** The parts of the C++ library that handle doubles, left uninterpreted. */
  datatype FloatLib = FloatLib(stod: string -> Option<nat>, show: nat -> string, toInt: nat -> Int64)

  // --- Key order --------------------------------------------------------------

  predicate Less(a: string, b: string) {
    b != "" && (a == "" || a[0] < b[0] || (a[0] == b[0] && Less(a[1..], b[1..])))
  }

  lemma {:induction false} LessTransitive(a: string, b: string, c: string)
    requires Less(a, b) && Less(b, c)
    ensures Less(a, c)
  {
    if a != "" && a[0] == b[0] == c[0] {
      LessTransitive(a[1..], b[1..], c[1..]);
    }
  }

  lemma {:induction false} LessIrreflexive(a: string)
    ensures !Less(a, a)
  {
    if a != "" {
      LessIrreflexive(a[1..]);
    }
  }

  lemma {:induction false} LessTotal(a: string, b: string)
    ensures a == b || Less(a, b) || Less(b, a)
  {
    if a != "" && b != "" && a[0] == b[0] {
      LessTotal(a[1..], b[1..]);
      if a[1..] == b[1..] {
        assert a == [a[0]] + a[1..] && b == [b[0]] + b[1..];
      }
    }
  }

  /** The order is lexicographic: the first difference decides, and a prefix comes first. */
  lemma {:induction false} LessExactly(a: string, b: string, k: nat)
    requires k <= |a| && k <= |b| && a[..k] == b[..k]
    requires k == |a| || k == |b| || a[k] != b[k]
    ensures Less(a, b) <==> k < |b| && (k == |a| || a[k] < b[k])
  {
    if k > 0 {
      assert a[0] == a[..k][0] && b[0] == b[..k][0];
      assert a[1..][..k - 1] == a[..k][1..] && b[1..][..k - 1] == b[..k][1..];
      LessExactly(a[1..], b[1..], k - 1);
    }
  }

  // --- Objects ----------------------------------------------------------------

  ghost predicate Above(o: Object, key: string) {
    forall i | 0 <= i < |o| :: Less(key, o[i].key)
  }

  ghost predicate Below(o: Object, key: string) {
    forall i | 0 <= i < |o| :: Less(o[i].key, key)
  }

  ghost predicate Ascending(o: Object) {
    forall i, j | 0 <= i < j < |o| :: Less(o[i].key, o[j].key)
  }

  /** `Value::find`, on the members of an object. */
  function Find(o: Object, key: string): Option<Value> {
    if o == [] then None
    else if o[0].key == key then Some(o[0].value)
    else Find(o[1..], key)
  }

  lemma {:induction false} FindAbove(o: Object, key: string)
    requires Above(o, key)
    ensures Find(o, key) == None
  {
    if o != [] {
      LessIrreflexive(key);
      FindAbove(o[1..], key);
    }
  }

  lemma {:induction false} FindMember(o: Object, i: nat)
    requires Ascending(o) && i < |o|
    ensures Find(o, o[i].key) == Some(o[i].value)
  {
    if i > 0 {
      LessIrreflexive(o[0].key);
      FindMember(o[1..], i - 1);
    }
  }

  lemma {:induction false} FindPresent(o: Object, key: string) returns (i: nat)
    requires Find(o, key).Some?
    ensures i < |o| && o[i].key == key && o[i].value == Find(o, key).value
  {
    if o[0].key == key {
      i := 0;
    } else {
      i := FindPresent(o[1..], key);
      i := i + 1;
    }
  }

  /** `std::map::insert_or_assign`. */
  function InsertOrAssign(o: Object, key: string, value: Value): Object {
    if o == [] || Less(key, o[0].key) then [Member(key, value)] + o
    else if o[0].key == key then [Member(key, value)] + o[1..]
    else [o[0]] + InsertOrAssign(o[1..], key, value)
  }

  /** Insertion keeps the order, and lookup afterwards sees exactly the one change. */
  lemma {:induction false} InsertSpec(o: Object, key: string, value: Value)
    requires Ascending(o)
    ensures Ascending(InsertOrAssign(o, key, value))
    ensures forall k :: Find(InsertOrAssign(o, key, value), k) == if k == key then Some(value) else Find(o, k)
    ensures forall k :: Above(o, k) && Less(k, key) ==> Above(InsertOrAssign(o, key, value), k)
  {
    if o == [] {
    } else if Less(key, o[0].key) {
      forall i | 0 <= i < |o| ensures Less(key, o[i].key) {
        if i > 0 { LessTransitive(key, o[0].key, o[i].key); }
      }
    } else if o[0].key == key {
    } else {
      LessTotal(key, o[0].key);
      assert Above(o[1..], o[0].key);
      InsertSpec(o[1..], key, value);
    }
  }

  lemma {:induction false} InsertLast(o: Object, key: string, value: Value)
    requires Below(o, key)
    ensures InsertOrAssign(o, key, value) == o + [Member(key, value)]
  {
    if o != [] {
      LessIrreflexive(key);
      if Less(key, o[0].key) { LessTransitive(key, o[0].key, key); }
      assert Below(o[1..], key);
      InsertLast(o[1..], key, value);
      assert o == [o[0]] + o[1..];
    }
  }

  /** Two objects that answer every lookup alike are the same object. */
  lemma {:induction false} Extensional(a: Object, b: Object)
    requires Ascending(a) && Ascending(b)
    requires forall k :: Find(a, k) == Find(b, k)
    ensures a == b
  {
    if a == [] || b == [] {
      var key := if a != [] then a[0].key else if b != [] then b[0].key else "";
      assert Find(a, key) == Find(b, key);
    } else {
      FirstKeyLeast(a, b);
      FirstKeyLeast(b, a);
      LessTotal(a[0].key, b[0].key);
      var key := a[0].key;
      assert Find(a, key) == Find(b, key);
      assert a[0] == b[0];
      assert Above(a[1..], key) && Above(b[1..], key);
      FindAbove(a[1..], key);
      FindAbove(b[1..], key);
      forall k ensures Find(a[1..], k) == Find(b[1..], k) {
        assert Find(a, k) == Find(b, k);
      }
      Extensional(a[1..], b[1..]);
      assert a == [a[0]] + a[1..] && b == [b[0]] + b[1..];
    }
  }

  lemma FirstKeyLeast(a: Object, b: Object)
    requires Ascending(a) && Ascending(b) && a != [] && b != []
    requires Find(b, a[0].key) == Find(a, a[0].key)
    ensures !Less(a[0].key, b[0].key)
  {
    var key := a[0].key;
    if Less(key, b[0].key) {
      forall i | 0 <= i < |b| ensures Less(key, b[i].key) {
        if i > 0 { LessTransitive(key, b[0].key, b[i].key); }
      }
      FindAbove(b, key);
    }
  }

  // --- Measures of a value ------------------------------------------------------

  /** Nesting depth: scalars and empty containers have height 0. */
  function Height(v: Value): nat {
    match v
    case Arr(items) => if items == [] then 0 else 1 + ItemsHeight(items)
    case Obj(members) => if members == [] then 0 else 1 + MembersHeight(members)
    case _ => 0
  }

  function ItemsHeight(items: seq<Value>): nat {
    if items == [] then 0 else Max(Height(items[0]), ItemsHeight(items[1..]))
  }

  function MembersHeight(members: Object): nat {
    if members == [] then 0 else Max(Height(members[0].value), MembersHeight(members[1..]))
  }

  /** Every object inside `v` is a map: its keys ascend strictly. */
  ghost predicate WellFormed(v: Value) {
    match v
    case Arr(items) => forall x | x in items :: WellFormed(x)
    case Obj(members) => Ascending(members) && forall m | m in members :: WellFormed(m.value)
    case _ => true
  }

  predicate DoubleFree(v: Value) {
    match v
    case Double(_) => false
    case Arr(items) => forall x | x in items :: DoubleFree(x)
    case Obj(members) => forall m | m in members :: DoubleFree(m.value)
    case _ => true
  }
}
