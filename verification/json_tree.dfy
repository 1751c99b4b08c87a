/** A parsed rapidjson document as a tree of values. Objects keep their
    members as an ordered list, duplicates included, and a lookup by name
    finds the first member with that name, as rapidjson's FindMember does. */
module JsonTree {
  import opened Wrappers
  import opened CNumeric

  /** An IEEE double, kept as its bit pattern: nothing here interprets it. */
  datatype Float64 = Float64(bits: bv64)

  /** Numbers are either integers (rapidjson's Int/Uint/Int64/Uint64 flags)
      or doubles (its Double flag). */
  datatype Json =
    | JNull
    | JBool(flag: bool)
    | JInt(n: int)
    | JDouble(d: Float64)
    | JString(text: string)
    | JArray(elements: seq<Json>)
    | JObject(members: seq<(string, Json)>)

  /** rapidjson's IsInt(): an integer in the 32-bit signed range. */
  predicate IsInt(v: Json)
    ensures IsInt(v) ==> IsInt64(v)
  {
    v.JInt? && -0x8000_0000 <= v.n < 0x8000_0000
  }

  /** rapidjson's IsInt64(): an integer in the 64-bit signed range, which
      is the range of a C `long` here. */
  predicate IsInt64(v: Json)
    ensures IsInt64(v) <==> v.JInt? && LONG_MIN <= v.n <= LONG_MAX
  {
    v.JInt? && -0x8000_0000_0000_0000 <= v.n < 0x8000_0000_0000_0000
  }

  /** The index of the first member called `name`. */
  function FindIndex(members: seq<(string, Json)>, name: string): (r: Option<nat>)
    ensures r.None? <==> forall k | 0 <= k < |members| :: members[k].0 != name
    ensures r.Some? ==> r.value < |members| && members[r.value].0 == name
    ensures r.Some? ==> forall k | 0 <= k < r.value :: members[k].0 != name
  {
    if members == [] then None
    else if members[0].0 == name then Some(0)
    else match FindIndex(members[1..], name)
      case None => None
      case Some(k) => Some(k + 1)
  }

  /** `HasMember(name)` and `operator[](name)` on an object's members. */
  function Lookup(members: seq<(string, Json)>, name: string): (r: Option<Json>)
    ensures r.None? <==> forall k | 0 <= k < |members| :: members[k].0 != name
    ensures r.Some? ==> (name, r.value) in members
    ensures r.Some? ==> FindIndex(members, name).Some? && r.value == members[FindIndex(members, name).value].1
  {
    match FindIndex(members, name)
    case None => None
    case Some(k) => Some(members[k].1)
  }

  /** Member `name` of a value, absent when the value is not an object. */
  function Member(v: Json, name: string): (r: Option<Json>)
    ensures r.Some? ==> v.JObject?
    ensures v.JObject? ==> r == Lookup(v.members, name)
  {
    if v.JObject? then Lookup(v.members, name) else None
  }

  /** FindIndex looks only at the names. */
  lemma {:induction false} FindIndexNames(a: seq<(string, Json)>, b: seq<(string, Json)>, name: string)
    requires |a| == |b|
    requires forall k | 0 <= k < |a| :: a[k].0 == b[k].0
    ensures FindIndex(a, name) == FindIndex(b, name)
  {
    if a != [] && a[0].0 != name {
      FindIndexNames(a[1..], b[1..], name);
    }
  }

  /** One step of a location: an object member by name, an array element by index. */
  datatype Step = Key(name: string) | Index(index: nat)

  /** The place of a node in a document, as the steps from the root. */
  type Location = seq<Step>

  /** The node found by following `loc` from `v`, if every step exists. */
  function NodeAt(v: Json, loc: Location): (r: Option<Json>)
    ensures loc == [] ==> r == Some(v)
    ensures loc != [] && r.Some? ==> v.JObject? || v.JArray?
    decreases |loc|
  {
    if loc == [] then Some(v)
    else match (v, loc[0])
      case (JObject(ms), Key(k)) =>
        (match FindIndex(ms, k)
         case None => None
         case Some(i) => NodeAt(ms[i].1, loc[1..]))
      case (JArray(xs), Index(i)) =>
        if i < |xs| then NodeAt(xs[i], loc[1..]) else None
      case _ => None
  }

  /** One step by name from an object is its member lookup. */
  lemma {:induction false} NodeAtMember(v: Json, name: string)
    ensures NodeAt(v, [Key(name)]) == Member(v, name)
  {
    if v.JObject? {
      assert [Key(name)][1..] == [];
    }
  }

  /** `v` with the node at `loc` replaced by `n`; everything else is kept. */
  function ReplaceAt(v: Json, loc: Location, n: Json): (r: Json)
    requires NodeAt(v, loc).Some?
    ensures loc != [] ==> (r.JObject? == v.JObject? && r.JArray? == v.JArray?)
    decreases |loc|
  {
    if loc == [] then n
    else match (v, loc[0])
      case (JObject(ms), Key(k)) =>
        var i := FindIndex(ms, k).value;
        JObject(ms[i := (k, ReplaceAt(ms[i].1, loc[1..], n))])
      case (JArray(xs), Index(i)) =>
        JArray(xs[i := ReplaceAt(xs[i], loc[1..], n)])
  }

  /** Two locations that part ways: neither leads into the other. */
  predicate Diverges(a: Location, b: Location)
    decreases |a|
  {
    a != [] && b != [] && (a[0] != b[0] || Diverges(a[1..], b[1..]))
  }

  /** Following a location one step further. */
  lemma {:induction false} NodeAtSnoc(v: Json, loc: Location, s: Step)
    requires NodeAt(v, loc).Some?
    ensures NodeAt(v, loc + [s]) == NodeAt(NodeAt(v, loc).value, [s])
    decreases |loc|
  {
    if loc != [] {
      assert (loc + [s])[0] == loc[0];
      assert (loc + [s])[1..] == loc[1..] + [s];
      match (v, loc[0])
      case (JObject(ms), Key(k)) =>
        NodeAtSnoc(ms[FindIndex(ms, k).value].1, loc[1..], s);
      case (JArray(xs), Index(i)) =>
        NodeAtSnoc(xs[i], loc[1..], s);
    }
  }

  /** After the replacement the location holds the new node. */
  lemma {:induction false} ReplaceAtHere(v: Json, loc: Location, n: Json)
    requires NodeAt(v, loc).Some?
    ensures NodeAt(ReplaceAt(v, loc, n), loc) == Some(n)
    decreases |loc|
  {
    if loc != [] {
      match (v, loc[0])
      case (JObject(ms), Key(k)) =>
        var i := FindIndex(ms, k).value;
        var ms' := ms[i := (k, ReplaceAt(ms[i].1, loc[1..], n))];
        FindIndexNames(ms, ms', k);
        ReplaceAtHere(ms[i].1, loc[1..], n);
      case (JArray(xs), Index(i)) =>
        ReplaceAtHere(xs[i], loc[1..], n);
    }
  }

  /** The replacement leaves every node off its location as it was. */
  lemma {:induction false} ReplaceAtElsewhere(v: Json, loc: Location, n: Json, other: Location)
    requires NodeAt(v, loc).Some?
    requires Diverges(loc, other)
    ensures NodeAt(ReplaceAt(v, loc, n), other) == NodeAt(v, other)
    decreases |loc|
  {
    var r := ReplaceAt(v, loc, n);
    match (v, loc[0])
    case (JObject(ms), Key(k)) =>
      var i := FindIndex(ms, k).value;
      var ms' := ms[i := (k, ReplaceAt(ms[i].1, loc[1..], n))];
      assert r == JObject(ms');
      if other[0].Key? {
        var k2 := other[0].name;
        FindIndexNames(ms, ms', k2);
        if k2 == k {
          ReplaceAtElsewhere(ms[i].1, loc[1..], n, other[1..]);
        }
      }
    case (JArray(xs), Index(i)) =>
      var xs' := xs[i := ReplaceAt(xs[i], loc[1..], n)];
      assert r == JArray(xs');
      if other[0] == Index(i) {
        ReplaceAtElsewhere(xs[i], loc[1..], n, other[1..]);
      }
  }

  /** A replacement through an object keeps its members in order: the same
      number of members with the same names, duplicates included, and only
      the member the step selects changes, by the replacement below it. */
  lemma {:induction false} ReplaceAtObjectStep(ms: seq<(string, Json)>, loc: Location, n: Json)
    requires loc != [] && loc[0].Key? && NodeAt(JObject(ms), loc).Some?
    ensures FindIndex(ms, loc[0].name).Some?
    ensures NodeAt(ms[FindIndex(ms, loc[0].name).value].1, loc[1..]).Some?
    ensures var i := FindIndex(ms, loc[0].name).value;
            var r := ReplaceAt(JObject(ms), loc, n);
            r.JObject? && |r.members| == |ms| &&
            (forall j | 0 <= j < |ms| :: r.members[j].0 == ms[j].0) &&
            (forall j | 0 <= j < |ms| && j != i :: r.members[j] == ms[j]) &&
            r.members[i].1 == ReplaceAt(ms[i].1, loc[1..], n)
  {
  }

  /** A replacement through an array keeps its length, and only the element
      the step selects changes, by the replacement below it. */
  lemma {:induction false} ReplaceAtArrayStep(xs: seq<Json>, loc: Location, n: Json)
    requires loc != [] && loc[0].Index? && NodeAt(JArray(xs), loc).Some?
    ensures loc[0].index < |xs| && NodeAt(xs[loc[0].index], loc[1..]).Some?
    ensures var r := ReplaceAt(JArray(xs), loc, n);
            r.JArray? && |r.elements| == |xs| &&
            (forall j | 0 <= j < |xs| && j != loc[0].index :: r.elements[j] == xs[j]) &&
            r.elements[loc[0].index] == ReplaceAt(xs[loc[0].index], loc[1..], n)
  {
  }

  /** Following `loc + tail` is following `loc`, then `tail`. */
  lemma {:induction false} NodeAtAppend(v: Json, loc: Location, tail: Location)
    ensures NodeAt(v, loc + tail) == if NodeAt(v, loc).Some? then NodeAt(NodeAt(v, loc).value, tail) else None
    decreases |loc|
  {
    if loc == [] {
      assert loc + tail == tail;
    } else {
      assert (loc + tail)[0] == loc[0];
      assert (loc + tail)[1..] == loc[1..] + tail;
      match (v, loc[0])
      case (JObject(ms), Key(k)) =>
        if FindIndex(ms, k).Some? {
          NodeAtAppend(ms[FindIndex(ms, k).value].1, loc[1..], tail);
        }
      case (JArray(xs), Index(i)) =>
        if i < |xs| {
          NodeAtAppend(xs[i], loc[1..], tail);
        }
      case _ =>
    }
  }

  /** A replacement below `loc` leaves at `loc` the node found there before,
      with the same replacement made inside it. */
  lemma {:induction false} ReplaceAtBelow(v: Json, loc: Location, tail: Location, n: Json)
    requires NodeAt(v, loc + tail).Some?
    ensures NodeAt(v, loc).Some? && NodeAt(NodeAt(v, loc).value, tail).Some?
    ensures NodeAt(ReplaceAt(v, loc + tail, n), loc) == Some(ReplaceAt(NodeAt(v, loc).value, tail, n))
    decreases |loc|
  {
    NodeAtAppend(v, loc, tail);
    if loc == [] {
      assert loc + tail == tail;
    } else {
      assert (loc + tail)[0] == loc[0];
      assert (loc + tail)[1..] == loc[1..] + tail;
      match (v, loc[0])
      case (JObject(ms), Key(k)) =>
        var i := FindIndex(ms, k).value;
        var ms' := ms[i := (k, ReplaceAt(ms[i].1, loc[1..] + tail, n))];
        FindIndexNames(ms, ms', k);
        ReplaceAtBelow(ms[i].1, loc[1..], tail, n);
      case (JArray(xs), Index(i)) =>
        ReplaceAtBelow(xs[i], loc[1..], tail, n);
    }
  }
}
