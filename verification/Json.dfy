/** JSON values, their canonical form and strict decoding (src/acquisition/anime_qualification.rs). */
module Json {
  import opened Wrappers
  import opened Sequences
  import opened Ordering

  /** An object is its list of members; a decoded object never repeats a name, a written one may. */
  datatype Json =
    | Null
    | Bool(flag: bool)
    | Number(literal: string)
    | Str(text: string)
    | Array(items: seq<Json>)
    | Object(members: seq<Member>)

  datatype Member = Member(name: string, value: Json)

  function NameOf(m: Member): string {
    m.name
  }

  function Lookup(members: seq<Member>, name: string): Option<Json> {
    if members == [] then None
    else if members[0].name == name then Some(members[0].value)
    else Lookup(members[1..], name)
  }

  /** `get` on a value: absent unless the value is an object with that name. */
  function Get(v: Json, name: string): Option<Json> {
    if v.Object? then Lookup(v.members, name) else None
  }

  function AsStr(v: Json): Option<string> {
    if v.Str? then Some(v.text) else None
  }

  function GetStr(v: Json, name: string): Option<string> {
    match Get(v, name)
    case None => None
    case Some(w) => AsStr(w)
  }

  /** Map insertion: replace the value under the name in place, or append a new member. */
  function Put(members: seq<Member>, name: string, value: Json): (r: seq<Member>) {
    if members == [] then [Member(name, value)]
    else if members[0].name == name then [Member(name, value)] + members[1..]
    else [members[0]] + Put(members[1..], name, value)
  }

  lemma {:induction false} LookupPut(members: seq<Member>, name: string, value: Json, other: string)
    ensures Lookup(Put(members, name, value), other) == if other == name then Some(value) else Lookup(members, other)
  {
    if members != [] && members[0].name != name {
      LookupPut(members[1..], name, value, other);
    }
  }

  lemma {:induction false} LookupMember(members: seq<Member>, i: nat)
    requires i < |members| && NamesDistinct(members)
    ensures Lookup(members, members[i].name) == Some(members[i].value)
  {
    if i > 0 {
      assert members[0].name != members[i].name;
      LookupMember(members[1..], i - 1);
    }
  }

  lemma {:induction false} LookupFound(members: seq<Member>, name: string)
    ensures Lookup(members, name).Some? <==> exists i :: 0 <= i < |members| && members[i].name == name
    ensures Lookup(members, name).Some? ==> Member(name, Lookup(members, name).value) in members
  {
    if members != [] && members[0].name != name {
      LookupFound(members[1..], name);
      if Lookup(members, name).Some? {
        var i :| 0 <= i < |members[1..]| && members[1..][i].name == name;
        assert members[i + 1].name == name;
      }
    }
  }

  // ----- canonical form

  ghost predicate NamesDistinct(members: seq<Member>) {
    forall i, j :: 0 <= i < j < |members| ==> members[i].name != members[j].name
  }

  /** No object at any depth repeats a name. */
  ghost predicate UniqueNames(v: Json) {
    match v
    case Array(items) => forall i :: 0 <= i < |items| ==> UniqueNames(items[i])
    case Object(members) =>
      && NamesDistinct(members)
      && forall i :: 0 <= i < |members| ==> UniqueNames(members[i].value)
    case _ => true
  }

  ghost predicate NamesIncreasing(members: seq<Member>) {
    forall i, j :: 0 <= i < j < |members| ==> LexLess(members[i].name, members[j].name)
  }

  /** Every object at every depth lists its names in strictly increasing order. */
  ghost predicate SortedNames(v: Json) {
    match v
    case Array(items) => forall i :: 0 <= i < |items| ==> SortedNames(items[i])
    case Object(members) =>
      && NamesIncreasing(members)
      && forall i :: 0 <= i < |members| ==> SortedNames(members[i].value)
    case _ => true
  }

  function Ordered(members: seq<Member>): (r: seq<Member>)
    ensures |r| == |members|
    ensures forall m :: m in r <==> m in members
  {
    SortByPermutes(NameOf, members);
    PermutationMembers(SortBy(NameOf, members), members);
    SortBy(NameOf, members)
  }

  function Canonicalize(v: Json): Json {
    match v
    case Array(items) => Array(seq(|items|, i requires 0 <= i < |items| => Canonicalize(items[i])))
    case Object(members) =>
      var ordered := Ordered(members);
      Object(seq(|ordered|, i requires 0 <= i < |ordered| =>
        assert ordered[i] in members;
        Member(ordered[i].name, Canonicalize(ordered[i].value))))
    case _ => v
  }

  lemma OrderedIncreasing(members: seq<Member>)
    requires NamesDistinct(members)
    ensures NamesIncreasing(Ordered(members))
  {
    var ordered := Ordered(members);
    SortBySorted(NameOf, members);
    SortByPermutes(NameOf, members);
    assert DistinctBy(NameOf, members);
    PermutationDistinctBy(NameOf, members, ordered);
    forall i, j | 0 <= i < j < |ordered| ensures LexLess(ordered[i].name, ordered[j].name) {
      assert NameOf(ordered[i]) != NameOf(ordered[j]);
      assert !LexLess(NameOf(ordered[j]), NameOf(ordered[i]));
      LexTrichotomy(ordered[i].name, ordered[j].name);
    }
  }

  /** Canonicalising keeps names unique and sorts them at every depth. */
  lemma {:induction false} CanonicalIsSorted(v: Json)
    requires UniqueNames(v)
    ensures UniqueNames(Canonicalize(v)) && SortedNames(Canonicalize(v))
  {
    match v
    case Array(items) =>
      forall i | 0 <= i < |items| ensures UniqueNames(Canonicalize(items[i])) && SortedNames(Canonicalize(items[i])) {
        CanonicalIsSorted(items[i]);
      }
    case Object(members) =>
      var ordered, canonical := Ordered(members), Canonicalize(v).members;
      OrderedIncreasing(members);
      forall i | 0 <= i < |ordered| ensures UniqueNames(canonical[i].value) && SortedNames(canonical[i].value) {
        assert ordered[i] in members;
        var k :| 0 <= k < |members| && members[k] == ordered[i];
        CanonicalIsSorted(members[k].value);
      }
      forall i, j | 0 <= i < j < |canonical| ensures canonical[i].name != canonical[j].name {
        assert LexLess(ordered[i].name, ordered[j].name);
        LexTrichotomy(ordered[i].name, ordered[j].name);
      }
    case _ =>
  }

  lemma CanonicalMembers(members: seq<Member>, name: string, value: Json)
    ensures Member(name, value) in Canonicalize(Object(members)).members <==>
              exists i :: 0 <= i < |members| && members[i].name == name && Canonicalize(members[i].value) == value
  {
    var ordered, canonical := Ordered(members), Canonicalize(Object(members)).members;
    if Member(name, value) in canonical {
      var k :| 0 <= k < |canonical| && canonical[k] == Member(name, value);
      assert ordered[k] in members;
      var i :| 0 <= i < |members| && members[i] == ordered[k];
    }
    if i :| 0 <= i < |members| && members[i].name == name && Canonicalize(members[i].value) == value {
      assert members[i] in ordered;
      var k :| 0 <= k < |ordered| && ordered[k] == members[i];
      assert canonical[k] == Member(name, value);
    }
  }

  function MapOption(v: Option<Json>): Option<Json> {
    match v
    case None => None
    case Some(w) => Some(Canonicalize(w))
  }

  /** Looking a name up commutes with canonicalising. */
  lemma CanonicalKeepsLookups(members: seq<Member>, name: string)
    requires UniqueNames(Object(members))
    ensures Lookup(Canonicalize(Object(members)).members, name) == MapOption(Lookup(members, name))
  {
    var canonical := Canonicalize(Object(members)).members;
    CanonicalIsSorted(Object(members));
    LookupFound(members, name);
    LookupFound(canonical, name);
    if Lookup(members, name).Some? {
      var v := Lookup(members, name).value;
      var i :| 0 <= i < |members| && members[i] == Member(name, v);
      CanonicalMembers(members, name, Canonicalize(v));
      var k :| 0 <= k < |canonical| && canonical[k] == Member(name, Canonicalize(v));
      LookupMember(canonical, k);
    } else if Lookup(canonical, name).Some? {
      CanonicalMembers(members, name, Lookup(canonical, name).value);
    }
  }

  // ----- equality up to member order

  /** Equality up to the order of object members: arrays agree item by item, objects name by name. */
  ghost predicate Same(a: Json, b: Json) {
    match a
    case Array(xs) =>
      b.Array? && |xs| == |b.items| && forall i :: 0 <= i < |xs| ==> Same(xs[i], b.items[i])
    case Object(xs) =>
      && b.Object?
      && (forall i :: 0 <= i < |xs| ==> SameLookup(xs[i], Lookup(b.members, xs[i].name)))
      && (forall j :: 0 <= j < |b.members| ==> Lookup(xs, b.members[j].name).Some?)
    case _ => a == b
  }

  ghost predicate SameLookup(m: Member, found: Option<Json>) {
    found.Some? && Same(m.value, found.value)
  }

  /** The canonical form differs from the value at most in member order. */
  lemma {:induction false} CanonicalIsSame(v: Json)
    requires UniqueNames(v)
    ensures Same(Canonicalize(v), v)
  {
    match v
    case Array(items) =>
      forall i | 0 <= i < |items| ensures Same(Canonicalize(items[i]), items[i]) {
        CanonicalIsSame(items[i]);
      }
    case Object(members) =>
      var ordered, canonical := Ordered(members), Canonicalize(v).members;
      forall i | 0 <= i < |canonical| ensures SameLookup(canonical[i], Lookup(members, canonical[i].name)) {
        assert ordered[i] in members;
        var j :| 0 <= j < |members| && members[j] == ordered[i];
        LookupMember(members, j);
        CanonicalIsSame(members[j].value);
      }
      forall j | 0 <= j < |members| ensures Lookup(canonical, members[j].name).Some? {
        LookupMember(members, j);
        CanonicalKeepsLookups(members, members[j].name);
      }
    case _ =>
  }

  /** In a list without repeated names, being listed and being looked up are the same thing. */
  lemma MemberIffLookup(members: seq<Member>, m: Member)
    requires NamesDistinct(members)
    ensures m in members <==> Lookup(members, m.name) == Some(m.value)
  {
    if m in members {
      var i :| 0 <= i < |members| && members[i] == m;
      LookupMember(members, i);
    }
    LookupFound(members, m.name);
  }

  lemma SameLookups(xs: seq<Member>, ys: seq<Member>, name: string)
    requires UniqueNames(Object(xs)) && UniqueNames(Object(ys)) && Same(Object(xs), Object(ys))
    ensures Lookup(xs, name).Some? <==> Lookup(ys, name).Some?
    ensures Lookup(xs, name).Some? ==>
      exists i :: 0 <= i < |xs| && xs[i].name == name && xs[i].value == Lookup(xs, name).value
  {
    LookupFound(xs, name);
    LookupFound(ys, name);
    if Lookup(xs, name).Some? {
      var i :| 0 <= i < |xs| && xs[i] == Member(name, Lookup(xs, name).value);
      assert SameLookup(xs[i], Lookup(ys, xs[i].name));
    }
    if Lookup(ys, name).Some? {
      var j :| 0 <= j < |ys| && ys[j].name == name;
    }
  }

  lemma SameObjectsCanonicalEqual(xs: seq<Member>, ys: seq<Member>)
    requires UniqueNames(Object(xs)) && UniqueNames(Object(ys)) && Same(Object(xs), Object(ys))
    requires forall i :: 0 <= i < |xs| ==> Some(Canonicalize(xs[i].value)) == MapOption(Lookup(ys, xs[i].name))
    ensures Canonicalize(Object(xs)) == Canonicalize(Object(ys))
  {
    hide Canonicalize, Same, UniqueNames;
    CanonicalObjects(xs);
    CanonicalObjects(ys);
    var ca, cb := Canonicalize(Object(xs)).members, Canonicalize(Object(ys)).members;
    forall m ensures m in ca <==> m in cb {
      MemberIffLookup(ca, m);
      MemberIffLookup(cb, m);
      CanonicalKeepsLookups(xs, m.name);
      CanonicalKeepsLookups(ys, m.name);
      SameLookups(xs, ys, m.name);
    }
    IncreasingByUnique(NameOf, ca, cb);
  }

  lemma CanonicalObjects(members: seq<Member>)
    requires UniqueNames(Object(members))
    ensures Canonicalize(Object(members)).Object?
    ensures NamesDistinct(Canonicalize(Object(members)).members) &&
      NamesIncreasing(Canonicalize(Object(members)).members)
  {
    CanonicalIsSorted(Object(members));
  }

  /** Values that differ only in member order canonicalise to the same value. */
  lemma {:induction false} SameImpliesCanonicalEqual(a: Json, b: Json)
    requires UniqueNames(a) && UniqueNames(b) && Same(a, b)
    ensures Canonicalize(a) == Canonicalize(b)
  {
    match a
    case Array(xs) =>
      forall i | 0 <= i < |xs| ensures Canonicalize(xs[i]) == Canonicalize(b.items[i]) {
        SameImpliesCanonicalEqual(xs[i], b.items[i]);
      }
    case Object(xs) =>
      forall i | 0 <= i < |xs| ensures Some(Canonicalize(xs[i].value)) == MapOption(Lookup(b.members, xs[i].name)) {
        assert SameLookup(xs[i], Lookup(b.members, xs[i].name));
        var w := Lookup(b.members, xs[i].name).value;
        LookupFound(b.members, xs[i].name);
        var j :| 0 <= j < |b.members| && b.members[j] == Member(xs[i].name, w);
        SameImpliesCanonicalEqual(xs[i].value, b.members[j].value);
      }
      SameObjectsCanonicalEqual(xs, b.members);
    case _ =>
  }

  lemma {:induction false} CanonicalEqualImpliesSame(a: Json, b: Json)
    requires UniqueNames(a) && UniqueNames(b) && Canonicalize(a) == Canonicalize(b)
    ensures Same(a, b)
  {
    match a
    case Array(xs) =>
      assert b.Array?;
      forall i | 0 <= i < |xs| ensures Same(xs[i], b.items[i]) {
        assert Canonicalize(a).items[i] == Canonicalize(b).items[i];
        CanonicalEqualImpliesSame(xs[i], b.items[i]);
      }
    case Object(xs) =>
      assert b.Object?;
      forall i | 0 <= i < |xs| ensures SameLookup(xs[i], Lookup(b.members, xs[i].name)) {
        LookupMember(xs, i);
        CanonicalKeepsLookups(xs, xs[i].name);
        CanonicalKeepsLookups(b.members, xs[i].name);
        var w := Lookup(b.members, xs[i].name).value;
        LookupFound(b.members, xs[i].name);
        var j :| 0 <= j < |b.members| && b.members[j] == Member(xs[i].name, w);
        CanonicalEqualImpliesSame(xs[i].value, b.members[j].value);
      }
      forall j | 0 <= j < |b.members| ensures Lookup(xs, b.members[j].name).Some? {
        LookupMember(b.members, j);
        CanonicalKeepsLookups(xs, b.members[j].name);
        CanonicalKeepsLookups(b.members, b.members[j].name);
      }
    case _ =>
  }

  /** Canonical forms agree exactly for values that are equal up to member order. */
  lemma CanonicalDecidesSame(a: Json, b: Json)
    requires UniqueNames(a) && UniqueNames(b)
    ensures Canonicalize(a) == Canonicalize(b) <==> Same(a, b)
  {
    if Same(a, b) {
      SameImpliesCanonicalEqual(a, b);
    }
    if Canonicalize(a) == Canonicalize(b) {
      CanonicalEqualImpliesSame(a, b);
    }
  }

  lemma CanonicalizeIdempotent(v: Json)
    requires UniqueNames(v)
    ensures Canonicalize(Canonicalize(v)) == Canonicalize(v)
  {
    CanonicalIsSorted(v);
    CanonicalIsSame(v);
    SameImpliesCanonicalEqual(Canonicalize(v), v);
  }

  // ----- strict decoding

  /** Builds the value a document spells, refusing it as soon as an object repeats a name. */
  method DecodeStrict(written: Json) returns (r: Option<Json>)
    ensures r.Some? <==> UniqueNames(written)
    ensures r.Some? ==> r.value == written
    decreases written
  {
    match written {
      case Array(items) =>
        var result: seq<Json> := [];
        for i := 0 to |items|
          invariant result == items[..i]
          invariant forall k :: 0 <= k < i ==> UniqueNames(items[k])
        {
          var item := DecodeStrict(items[i]);
          if item.None? {
            return None;
          }
          result := result + [item.value];
        }
        return Some(Array(result));
      case Object(members) =>
        var result: seq<Member> := [];
        for i := 0 to |members|
          invariant result == members[..i]
          invariant NamesDistinct(members[..i])
          invariant forall k :: 0 <= k < i ==> UniqueNames(members[k].value)
        {
          var value := DecodeStrict(members[i].value);
          if value.None? {
            return None;
          }
          LookupFound(result, members[i].name);
          if Lookup(result, members[i].name).Some? {
            return None;
          }
          PutFresh(result, members[i].name, value.value);
          result := Put(result, members[i].name, value.value);
        }
        assert members[..|members|] == members;
        return Some(Object(result));
      case _ =>
        return Some(written);
    }
  }

  lemma {:induction false} PutFresh(members: seq<Member>, name: string, value: Json)
    requires Lookup(members, name).None?
    ensures Put(members, name, value) == members + [Member(name, value)]
  {
    if members != [] {
      PutFresh(members[1..], name, value);
    }
  }
}
