/**
Bringing a live index's field mapping up to date: read which of the wanted properties
every concrete index behind a name maps, refuse if one is mapped with another type, and
write the ones some index lacks.
*/
module FieldMapping {
  import opened Prelude

  // ------------------------------------------------------------------------
  // Sorted names
  // ------------------------------------------------------------------------

  predicate Less(a: string, b: string) {
    b != [] && (a == [] || a[0] < b[0] || (a[0] == b[0] && Less(a[1..], b[1..])))
  }

  lemma {:induction false} LessIsTotal(a: string, b: string)
    ensures Less(a, b) || a == b || Less(b, a)
    ensures !(Less(a, b) && Less(b, a))
    ensures Less(a, b) ==> a != b
  {
    if a != [] && b != [] {
      LessIsTotal(a[1..], b[1..]);
      assert a == [a[0]] + a[1..] && b == [b[0]] + b[1..];
    }
  }

  lemma {:induction false} LessIsTransitive(a: string, b: string, c: string)
    requires Less(a, b) && Less(b, c)
    ensures Less(a, c)
  {
    if a != [] && a[0] == b[0] == c[0] {
      LessIsTransitive(a[1..], b[1..], c[1..]);
    }
  }

  /** The order of names: the shorter of two when it begins the other, else the one smaller where they first differ. */
  lemma {:induction false} LessMeaning(a: string, b: string, k: nat)
    requires k <= |a| && k <= |b| && a[..k] == b[..k]
    requires k < |a| && k < |b| ==> a[k] != b[k]
    ensures Less(a, b) <==> k < |b| && (k == |a| || (k < |a| && a[k] < b[k]))
    decreases k
  {
    if k > 0 {
      assert a[0] == a[..k][0] && b[0] == b[..k][0];
      assert a[1..][..k - 1] == a[..k][1..] && b[1..][..k - 1] == b[..k][1..];
      LessMeaning(a[1..], b[1..], k - 1);
    } else if k < |a| && k < |b| {
      assert a[0] != b[0];
    }
  }

  ghost predicate Sorted(names: seq<string>) {
    forall i, j :: 0 <= i < j < |names| ==> Less(names[i], names[j])
  }

  ghost function Names(names: seq<string>): set<string> {
    set n | n in names
  }

  lemma FrontIsNamed(a: seq<string>)
    ensures a != [] ==> a[0] in Names(a)
  {
  }

  /** A sorted list of names is determined by the names in it. */
  lemma {:induction false} SortedIsUnique(a: seq<string>, b: seq<string>)
    requires Sorted(a) && Sorted(b) && Names(a) == Names(b)
    ensures a == b
  {
    FrontIsNamed(a);
    FrontIsNamed(b);
    if a != [] {
      LessIsTotal(a[0], b[0]);
      TailNames(a);
      TailNames(b);
      SortedIsUnique(a[1..], b[1..]);
      assert a == [a[0]] + a[1..] && b == [b[0]] + b[1..];
    }
  }

  lemma TailNames(a: seq<string>)
    requires Sorted(a) && a != []
    ensures Names(a[1..]) == Names(a) - {a[0]}
    ensures Sorted(a[1..])
  {
    forall n | n in a[1..]
      ensures n != a[0]
    {
      LessIsTotal(a[0], n);
    }
    assert a == [a[0]] + a[1..];
  }

  method SortNames(names: set<string>) returns (sorted: seq<string>)
    ensures Sorted(sorted) && Names(sorted) == names
  {
    sorted := [];
    var todo := names;
    while todo != {}
      invariant todo <= names
      invariant Sorted(sorted) && Names(sorted) == names - todo
      decreases todo
    {
      var name :| name in todo;
      todo := todo - {name};
      sorted := InsertName(sorted, name);
    }
  }

  method InsertName(sorted: seq<string>, name: string) returns (r: seq<string>)
    requires Sorted(sorted) && name !in sorted
    ensures Sorted(r) && Names(r) == Names(sorted) + {name}
  {
    var p := 0;
    while p < |sorted| && Less(sorted[p], name)
      invariant 0 <= p <= |sorted|
      invariant forall i :: 0 <= i < p ==> Less(sorted[i], name)
    {
      p := p + 1;
    }
    if p < |sorted| {
      LessIsTotal(sorted[p], name);
      forall i | p < i < |sorted|
        ensures Less(name, sorted[i])
      {
        LessIsTransitive(name, sorted[p], sorted[i]);
      }
    }
    r := sorted[..p] + [name] + sorted[p..];
    assert sorted == sorted[..p] + sorted[p..];
  }

  // ------------------------------------------------------------------------
  // The wanted properties
  // ------------------------------------------------------------------------

  /** A template object, as far as it is looked at. */
  datatype Json = Obj(members: map<string, Json>) | Str(s: string) | Other

  /** A property that is an object naming its type. */
  predicate Typed(property: Json) {
    property.Obj? && "type" in property.members && property.members["type"].Str?
  }

  function TypeOf(property: Json): string
    requires Typed(property)
  {
    property.members["type"].s
  }

  type Wanted = map<string, string>

  predicate WellTyped(properties: map<string, Json>) {
    && "properties" in properties && properties["properties"].Obj?
    && forall name :: name in properties["properties"].members ==> Typed(properties["properties"].members[name])
  }

  function WantedTypes(properties: map<string, Json>): Wanted
    requires WellTyped(properties)
  {
    map name | name in properties["properties"].members :: TypeOf(properties["properties"].members[name])
  }

  method MappingTypes(properties: map<string, Json>) returns (r: Option<Wanted>)
    ensures r.Some? <==> WellTyped(properties)
    ensures r.Some? ==> r.value == WantedTypes(properties)
    ensures r.Some? ==>
              && "properties" in properties && properties["properties"].Obj?
              && var all := properties["properties"].members;
              && r.value.Keys == all.Keys
              && forall name :: name in all ==>
                   && all[name].Obj? && "type" in all[name].members
                   && all[name].members["type"] == Str(r.value[name])
  {
    if "properties" !in properties || !properties["properties"].Obj? {
      return None;
    }
    var all := properties["properties"].members;
    var types: Wanted := map[];
    var todo := all.Keys;
    while todo != {}
      invariant todo <= all.Keys
      invariant forall name :: name in all && name !in todo ==> Typed(all[name])
      invariant types == map name | name in all && name !in todo :: TypeOf(all[name])
      decreases todo
    {
      var name :| name in todo;
      if !Typed(all[name]) {
        return None;
      }
      types := types[name := TypeOf(all[name])];
      todo := todo - {name};
    }
    return Some(types);
  }

  // ------------------------------------------------------------------------
  // The live mapping
  // ------------------------------------------------------------------------

  /** A field's mapping: the type of each leaf. An empty one means the field is not mapped. */
  type Field = map<string, string>

  type IndexMapping = map<string, Field>

  /** One mapping per concrete index behind the queried name. */
  type Live = map<string, IndexMapping>

  predicate Mapped(mapping: IndexMapping, name: string) {
    name in mapping && mapping[name] != map[]
  }

  ghost predicate TypeMatches(field: Field, want: string) {
    forall leaf :: leaf in field ==> field[leaf] == want
  }

  /** Some index maps a wanted property with a different type. */
  ghost predicate Conflict(live: Live, wanted: Wanted) {
    exists i, n :: i in live && n in wanted && Mapped(live[i], n) && !TypeMatches(live[i][n], wanted[n])
  }

  /** The wanted properties that at least one index lacks; with no index at all, every one. */
  ghost function Missing(live: Live, wanted: Wanted): set<string> {
    set n | n in wanted && (live == map[] || exists i :: i in live && !Mapped(live[i], n))
  }

  method CheckFieldType(field: Field, want: string) returns (ok: bool)
    ensures ok <==> TypeMatches(field, want)
  {
    var todo := field.Keys;
    while todo != {}
      invariant todo <= field.Keys
      invariant forall leaf :: leaf in field && leaf !in todo ==> field[leaf] == want
      decreases todo
    {
      var leaf :| leaf in todo;
      if field[leaf] != want {
        return false;
      }
      todo := todo - {leaf};
    }
    return true;
  }

  /** One index: the names it lacks, or a conflict. */
  method CheckIndex(mapping: IndexMapping, wanted: Wanted, names: seq<string>) returns (ok: bool, missing: set<string>)
    requires Names(names) == wanted.Keys
    ensures ok <==> forall n :: n in wanted && Mapped(mapping, n) ==> TypeMatches(mapping[n], wanted[n])
    ensures ok ==> missing == set n | n in wanted && (n !in mapping || mapping[n] == map[])
  {
    missing := {};
    for k := 0 to |names|
      invariant forall j :: 0 <= j < k && Mapped(mapping, names[j]) ==>
                  names[j] in wanted && TypeMatches(mapping[names[j]], wanted[names[j]])
      invariant missing == set n | n in names[..k] && !Mapped(mapping, n)
    {
      var name := names[k];
      assert name in Names(names);
      assert names[..k + 1] == names[..k] + [name];
      if !Mapped(mapping, name) {
        missing := missing + {name};
        continue;
      }
      var matches := CheckFieldType(mapping[name], wanted[name]);
      if !matches {
        return false, missing;
      }
    }
    ok := true;
    assert names[..|names|] == names;
    forall n | n in wanted && Mapped(mapping, n)
      ensures TypeMatches(mapping[n], wanted[n])
    {
      assert n in Names(names);
    }
  }

  method MissingFields(live: Live, wanted: Wanted, names: seq<string>) returns (r: Option<seq<string>>)
    requires Names(names) == wanted.Keys
    ensures r.None? <==> Conflict(live, wanted)
    ensures r.Some? ==> Sorted(r.value) && Names(r.value) == Missing(live, wanted)
  {
    var missing: set<string> := {};
    if |live| == 0 {
      missing := set n | n in names;
    }
    var todo := live.Keys;
    while todo != {}
      invariant todo <= live.Keys
      invariant forall i, n :: i in live && i !in todo && n in wanted && Mapped(live[i], n) ==>
                  TypeMatches(live[i][n], wanted[n])
      invariant missing == set n | n in wanted
                  && (live == map[] || exists i :: i in live && i !in todo && !Mapped(live[i], n))
      decreases todo
    {
      var concreteIndex :| concreteIndex in todo;
      var ok, lacking := CheckIndex(live[concreteIndex], wanted, names);
      if !ok {
        return None;
      }
      missing := missing + lacking;
      todo := todo - {concreteIndex};
    }
    var sorted := SortNames(missing);
    return Some(sorted);
  }

  /** The answer does not depend on the order in which indices, fields or leaves are visited. */
  lemma AnswerIsUnique(live: Live, wanted: Wanted, a: seq<string>, b: seq<string>)
    requires Sorted(a) && Names(a) == Missing(live, wanted)
    requires Sorted(b) && Names(b) == Missing(live, wanted)
    ensures a == b
  {
    SortedIsUnique(a, b);
  }

  // ------------------------------------------------------------------------
  // The repair
  // ------------------------------------------------------------------------

  /** A mapping write reaches every index: each gains the named properties it lacks, and keeps what it maps. */
  function PutOne(mapping: IndexMapping, wanted: Wanted, names: set<string>): IndexMapping {
    map n | n in mapping.Keys + (names * wanted.Keys) ::
      if n in names && n in wanted && !Mapped(mapping, n) then map[n := wanted[n]] else mapping[n]
  }

  function PutMapping(live: Live, wanted: Wanted, names: set<string>): Live {
    map i | i in live :: PutOne(live[i], wanted, names)
  }

  lemma PutOneMaps(mapping: IndexMapping, wanted: Wanted, names: set<string>, n: string)
    requires n in wanted
    ensures Mapped(PutOne(mapping, wanted, names), n) <==> Mapped(mapping, n) || n in names
    ensures Mapped(mapping, n) ==> PutOne(mapping, wanted, names)[n] == mapping[n]
    ensures !Mapped(mapping, n) && n in names ==> TypeMatches(PutOne(mapping, wanted, names)[n], wanted[n])
  {
    assert n in map[n := wanted[n]];
  }

  /** After the repair reaches one or more indices there is still no conflict, and nothing is missing. */
  lemma {:induction false} RepairIsComplete(live: Live, wanted: Wanted)
    requires !Conflict(live, wanted) && live != map[]
    ensures var after := PutMapping(live, wanted, Missing(live, wanted));
            !Conflict(after, wanted) && Missing(after, wanted) == {}
  {
    var missing := Missing(live, wanted);
    var after := PutMapping(live, wanted, missing);
    forall i, n | i in live && n in wanted
      ensures Mapped(after[i], n) && TypeMatches(after[i][n], wanted[n])
    {
      PutOneMaps(live[i], wanted, missing, n);
    }
  }

  /** With no index behind the name the write reaches nothing, and the next check asks for the same again. */
  lemma RepairOfNothing(wanted: Wanted)
    ensures PutMapping(map[], wanted, Missing(map[], wanted)) == map[]
    ensures Missing(map[], wanted) == wanted.Keys
  {
  }

  class ElasticClient {
    var live: Live
    var writes: nat

    constructor (live: Live)
      ensures this.live == live && writes == 0
    {
      this.live, writes := live, 0;
    }

    /** Adds what the index lacks; `accepted` is the cluster's answer to a mapping write. */
    method CheckAndUpdateMapping(properties: map<string, Json>, accepted: bool) returns (ok: bool)
      modifies this
      ensures var sound := WellTyped(properties) && !Conflict(old(live), WantedTypes(properties));
              var due := sound && Missing(old(live), WantedTypes(properties)) != {};
              && writes == old(writes) + (if due then 1 else 0)
              && live == (if due && accepted
                          then PutMapping(old(live), WantedTypes(properties),
                            Missing(old(live), WantedTypes(properties)))
                          else old(live))
              && (ok <==> sound && (due ==> accepted))
    {
      var wanted := MappingTypes(properties);
      if wanted.None? {
        return false;
      }
      var names := SortNames(wanted.value.Keys);
      var missing := MissingFields(live, wanted.value, names);
      if missing.None? {
        return false;
      }
      FrontIsNamed(missing.value);
      if |missing.value| == 0 {
        return true;
      }
      writes := writes + 1;
      if !accepted {
        return false;
      }
      live := PutMapping(live, wanted.value, set n | n in missing.value);
      return true;
    }

    /** A second start-up finds nothing to do: it succeeds, writes nothing and leaves the mapping alone. */
    method StartTwice(properties: map<string, Json>, accepted: bool)
      returns (first: bool, between: nat, repaired: Live, second: bool)
      requires live != map[]
      modifies this
      ensures first ==> second && writes == between && live == repaired
      ensures old(writes) <= between <= old(writes) + 1
      ensures first ==> WellTyped(properties) && Missing(live, WantedTypes(properties)) == {}
                        && !Conflict(live, WantedTypes(properties))
    {
      var start := live;
      first := CheckAndUpdateMapping(properties, true);
      between, repaired := writes, live;
      if first {
        RepairIsComplete(start, WantedTypes(properties));
      }
      second := CheckAndUpdateMapping(properties, accepted);
    }
  }
}
