/**
 The flat tool surface: one map from bare tool names to backends, in which a name two visible
 servers share belongs to neither of them.
 */
module FlatTools {

  import opened Options

  datatype Entry = Entry(server: string, tool: string)

  /** What the registry and the access policy answer for one tenant; `known` is what the registry
      resolves when no tenant is named. */
  datatype Access = Access(
    resolves: Entry -> bool, withdrawn: Entry -> bool, allowed: Entry -> bool, known: Entry -> bool)

  predicate Visible(access: Access, e: Entry) {
    access.resolves(e) && !access.withdrawn(e) && access.allowed(e)
  }

  predicate Bears(access: Access, e: Entry, name: string) {
    Visible(access, e) && e.tool == name
  }

  function BearerOf(access: Access, e: Entry, name: string): seq<Entry> {
    if Bears(access, e, name) then [e] else []
  }

  /** The reference form: the visible registry entries that bear a name. */
  function Bearers(entries: seq<Entry>, access: Access, name: string): seq<Entry> {
    if entries == [] then []
    else Bearers(entries[..|entries| - 1], access, name) + BearerOf(access, entries[|entries| - 1], name)
  }

  predicate MapsSoleBearer(flat: map<string, Entry>, bearers: seq<Entry>, name: string) {
    && (name in flat <==> |bearers| == 1)
    && (name in flat ==> bearers == [flat[name]])
  }

  /** Only a name with exactly one bearer is mapped, and to that bearer. */
  ghost predicate MapsSoleBearers(flat: map<string, Entry>, entries: seq<Entry>, access: Access) {
    forall name: string :: MapsSoleBearer(flat, Bearers(entries, access, name), name)
  }

  predicate MarksCollision(collisions: set<string>, bearers: seq<Entry>, name: string) {
    name in collisions <==> |bearers| >= 2
  }

  ghost predicate MarksCollisions(collisions: set<string>, entries: seq<Entry>, access: Access) {
    forall name: string :: MarksCollision(collisions, Bearers(entries, access, name), name)
  }

  lemma BearersSnoc(entries: seq<Entry>, e: Entry, access: Access, name: string)
    ensures Bearers(entries + [e], access, name) == Bearers(entries, access, name) + BearerOf(access, e, name)
  {
    assert (entries + [e])[..|entries|] == entries;
  }

  lemma InvisibleChangesNothing(flat: map<string, Entry>, collisions: set<string>, entries: seq<Entry>, e: Entry, access: Access)
    requires MapsSoleBearers(flat, entries, access) && MarksCollisions(collisions, entries, access) && !Visible(access, e)
    ensures MapsSoleBearers(flat, entries + [e], access) && MarksCollisions(collisions, entries + [e], access)
  {
    forall name: string
      ensures MapsSoleBearer(flat, Bearers(entries + [e], access, name), name)
      ensures MarksCollision(collisions, Bearers(entries + [e], access, name), name)
    {
      BearersSnoc(entries, e, access, name);
      assert MapsSoleBearer(flat, Bearers(entries, access, name), name);
      assert MarksCollision(collisions, Bearers(entries, access, name), name);
    }
  }

  /** A visible entry enters the map, collides with the one that is there, or adds to a collision. */
  method PlaceVisible(flat: map<string, Entry>, collisions: set<string>, e: Entry, ghost entries: seq<Entry>, access: Access)
    returns (flat': map<string, Entry>, collisions': set<string>)
    requires MapsSoleBearers(flat, entries, access) && MarksCollisions(collisions, entries, access) && Visible(access, e)
    ensures MapsSoleBearers(flat', entries + [e], access) && MarksCollisions(collisions', entries + [e], access)
  {
    flat', collisions' := flat, collisions;
    if e.tool !in collisions {
      if e.tool in flat {
        flat' := flat - {e.tool};
        collisions' := collisions + {e.tool};
      } else {
        flat' := flat[e.tool := e];
      }
    }
    forall name: string
      ensures MapsSoleBearer(flat', Bearers(entries + [e], access, name), name)
      ensures MarksCollision(collisions', Bearers(entries + [e], access, name), name)
    {
      BearersSnoc(entries, e, access, name);
      assert MapsSoleBearer(flat, Bearers(entries, access, name), name);
      assert MarksCollision(collisions, Bearers(entries, access, name), name);
    }
  }

  /** The loop of `_build_flat_map`, with the names already found to collide. */
  method BuildFlatMap(entries: seq<Entry>, access: Access) returns (flat: map<string, Entry>)
    ensures MapsSoleBearers(flat, entries, access)
  {
    flat := map[];
    var collisions: set<string> := {};
    for k := 0 to |entries|
      invariant MapsSoleBearers(flat, entries[..k], access)
      invariant MarksCollisions(collisions, entries[..k], access)
    {
      var e := entries[k];
      assert entries[..k + 1] == entries[..k] + [e];
      if !access.resolves(e) || access.withdrawn(e) || !access.allowed(e) {
        InvisibleChangesNothing(flat, collisions, entries[..k], e, access);
        continue;
      }
      flat, collisions := PlaceVisible(flat, collisions, e, entries[..k], access);
    }
    assert entries[..|entries|] == entries;
  }

  // ---------------------------------------------------------------- order and ownership

  lemma {:induction false} BearersCount(entries: seq<Entry>, access: Access, name: string, e: Entry)
    ensures multiset(Bearers(entries, access, name))[e] == if Bears(access, e, name) then multiset(entries)[e] else 0
  {
    if entries != [] {
      var n := |entries| - 1;
      BearersCount(entries[..n], access, name, e);
      assert entries == entries[..n] + [entries[n]];
      assert multiset(entries)[e] == multiset(entries[..n])[e] + multiset([entries[n]])[e];
      var front, last := Bearers(entries[..n], access, name), BearerOf(access, entries[n], name);
      assert multiset(front + last)[e] == multiset(front)[e] + multiset(last)[e];
    }
  }

  /** The map depends on which entries are registered, never on the order they are visited in. */
  lemma OrderDoesNotMatter(one: seq<Entry>, other: seq<Entry>, access: Access,
                           flat: map<string, Entry>, flat': map<string, Entry>)
    requires multiset(one) == multiset(other)
    requires MapsSoleBearers(flat, one, access) && MapsSoleBearers(flat', other, access)
    ensures flat == flat'
  {
    forall name: string
      ensures name in flat <==> name in flat'
      ensures name in flat ==> flat[name] == flat'[name]
    {
      SameBearers(one, other, access, name);
      assert MapsSoleBearer(flat, Bearers(one, access, name), name);
      assert MapsSoleBearer(flat', Bearers(other, access, name), name);
    }
  }

  lemma SameBearers(one: seq<Entry>, other: seq<Entry>, access: Access, name: string)
    requires multiset(one) == multiset(other)
    ensures |Bearers(one, access, name)| == |Bearers(other, access, name)|
    ensures |Bearers(one, access, name)| == 1 ==> Bearers(one, access, name) == Bearers(other, access, name)
  {
    forall e: Entry
      ensures multiset(Bearers(one, access, name))[e] == multiset(Bearers(other, access, name))[e]
    {
      BearersCount(one, access, name, e);
      BearersCount(other, access, name, e);
    }
    SameElements(Bearers(one, access, name), Bearers(other, access, name));
  }

  lemma SameElements(a: seq<Entry>, b: seq<Entry>)
    requires forall e: Entry :: multiset(a)[e] == multiset(b)[e]
    ensures |a| == |b|
    ensures |a| == 1 ==> a == b
  {
    assert multiset(a) == multiset(b);
    assert |a| == |multiset(a)| && |b| == |multiset(b)|;
    if |a| == 1 {
      assert a[0] in multiset(b);
    }
  }

  predicate Distinct(entries: seq<Entry>) {
    forall i, j | 0 <= i < j < |entries| :: entries[i] != entries[j]
  }

  function Owners(entries: seq<Entry>, access: Access, name: string): set<Entry> {
    set e | e in entries && Bears(access, e, name)
  }

  lemma {:induction false} BearersAreOwners(entries: seq<Entry>, access: Access, name: string)
    requires Distinct(entries)
    ensures Distinct(Bearers(entries, access, name))
    ensures forall e :: e in Bearers(entries, access, name) <==> e in Owners(entries, access, name)
  {
    if entries != [] {
      var n := |entries| - 1;
      BearersAreOwners(entries[..n], access, name);
      assert entries == entries[..n] + [entries[n]];
      assert entries[n] !in entries[..n];
      var front, last := Bearers(entries[..n], access, name), BearerOf(access, entries[n], name);
      assert entries[n] !in front;
      forall i, j | 0 <= i < j < |front + last| ensures (front + last)[i] != (front + last)[j] {
        assert j < |front| || (front + last)[j] == entries[n];
        assert (front + last)[i] == front[i];
      }
    }
  }

  /** A name is mapped exactly when one visible entry owns it,
      and a mapped name stands for that owner. */
  lemma MappedIffSoleOwner(entries: seq<Entry>, access: Access, flat: map<string, Entry>, name: string)
    requires Distinct(entries) && MapsSoleBearers(flat, entries, access)
    ensures name in flat <==> |Owners(entries, access, name)| == 1
    ensures name in flat ==> Owners(entries, access, name) == {flat[name]} && flat[name].tool == name
  {
    var a, owners := Bearers(entries, access, name), Owners(entries, access, name);
    BearersAreOwners(entries, access, name);
    assert MapsSoleBearer(flat, a, name);
    if |a| == 0 {
      assert owners == {};
    } else if |a| == 1 {
      assert owners == {a[0]};
    } else {
      assert a[0] in owners && a[1] in owners - {a[0]};
      assert |owners - {a[0]}| == |owners| - 1 > 0;
    }
  }

  /** Registering further entries can take a name away but never hand it to another backend. */
  lemma NamesAreNeverReassigned(entries: seq<Entry>, more: seq<Entry>, access: Access,
                                flat: map<string, Entry>, flat': map<string, Entry>, name: string)
    requires MapsSoleBearers(flat, entries, access) && MapsSoleBearers(flat', entries + more, access)
    requires name in flat && name in flat'
    ensures flat'[name] == flat[name]
  {
    BearersAppend(entries, more, access, name);
    assert MapsSoleBearer(flat, Bearers(entries, access, name), name);
    assert MapsSoleBearer(flat', Bearers(entries + more, access, name), name);
    assert Bearers(entries + more, access, name)[0] == Bearers(entries, access, name)[0];
  }

  lemma {:induction false} BearersAppend(entries: seq<Entry>, more: seq<Entry>, access: Access, name: string)
    ensures Bearers(entries, access, name) <= Bearers(entries + more, access, name)
  {
    if more == [] {
      assert entries + more == entries;
    } else {
      var n := |more| - 1;
      BearersAppend(entries, more[..n], access, name);
      assert (entries + more)[..|entries| + n] == entries + more[..n];
    }
  }

  // ---------------------------------------------------------------- the served list

  /** The names of the tools that `tools/list` serves from a map. */
  predicate Serves(names: set<string>, flat: map<string, Entry>, access: Access) {
    && names <= flat.Keys
    && forall name | name in flat :: name in names <==> access.known(flat[name])
  }

  /** `_build_mcp_tool_list`: the schema of a tool is asked for without a tenant, and a tool unknown
      then is left out. */
  method BuildToolList(flat: map<string, Entry>, access: Access) returns (names: set<string>)
    ensures Serves(names, flat, access)
  {
    names := {};
    var todo := flat.Keys;
    while todo != {}
      invariant todo <= flat.Keys && names <= flat.Keys - todo
      invariant forall name | name in flat && name !in todo :: name in names <==> access.known(flat[name])
      decreases todo
    {
      var name :| name in todo;
      todo := todo - {name};
      if access.known(flat[name]) {
        names := names + {name};
      }
    }
  }

  /** A call rebuilds the map. Over an unchanged registry, visited in any order, every name of the
      served list reaches the backend that it was listed for, a name outside the map is reported as
      not found, and a name that can be called without being listed is one that is unknown without a
      tenant. */
  method ResolveCall(name: string, entries: seq<Entry>, access: Access,
                     ghost listedFrom: seq<Entry>, ghost listed: map<string, Entry>, ghost served: set<string>)
    returns (backend: Option<Entry>)
    requires multiset(listedFrom) == multiset(entries) && MapsSoleBearers(listed, listedFrom, access)
    requires Serves(served, listed, access)
    ensures backend.Some? <==> name in listed
    ensures backend.Some? ==> backend.value == listed[name] && backend.value.tool == name
    ensures backend.Some? ==> Visible(access, backend.value) && backend.value in entries
    ensures name in served <==> backend.Some? && access.known(backend.value)
  {
    var flat := BuildFlatMap(entries, access);
    OrderDoesNotMatter(listedFrom, entries, access, listed, flat);
    if name !in flat {
      return None;
    }
    assert MapsSoleBearer(flat, Bearers(entries, access, name), name);
    BearersCount(entries, access, name, flat[name]);
    assert flat[name] in multiset(Bearers(entries, access, name));
    assert flat[name] in multiset(entries);
    backend := Some(flat[name]);
  }
}
