/**
 Importing external artifacts. The resources of the request are matched with local ones, or stored as
 new ones, and the artifacts are pointed at the local ids. Names of stored resources are unique: a put
 under a taken name is rejected, and the request fails with it.
 */
module ResourceImport {
  import opened Wrappers

  datatype ArtifactsCoordinates = ArtifactsCoordinates(url: string, userName: string, password: string)

  datatype OpenShiftCoordinates = OpenShiftCoordinates(
    apiUrl: string, userName: string, applicationsDomain: string, privateRegistryUrl: string, password: string)

  /** A resource with the coordinates that connect to it. */
  datatype Resource<C> = Resource(id: int, name: string, coordinates: C)

  datatype ResourceType = ArtifactsType | OpenShiftType | OtherType(name: string)

  datatype ResourceId = ResourceId(id: int, name: string, resourceType: ResourceType)

  /** The last resource with this id: what a map of pairs keeps. */
  function LastWithId<C>(resources: seq<Resource<C>>, id: int): Option<Resource<C>> {
    var n := |resources|;
    if n == 0 then None
    else if resources[n - 1].id == id then Some(resources[n - 1])
    else LastWithId(resources[..n - 1], id)
  }

  lemma {:induction false} LastOfDistinct<C>(resources: seq<Resource<C>>, k: nat)
    requires forall a, b :: 0 <= a < b < |resources| ==> resources[a].id != resources[b].id
    requires k < |resources|
    ensures LastWithId(resources, resources[k].id) == Some(resources[k])
  {
    var n := |resources|;
    if k < n - 1 {
      LastOfDistinct(resources[..n - 1], k);
    }
  }

  /** The requested resource of this id is available locally under `local`, with the same coordinates. */
  predicate IsImported<C(==)>(requested: seq<Resource<C>>, store: map<int, Resource<C>>, id: int, local: ResourceId) {
    && LastWithId(requested, id).Some?
    && local.id in store
    && store[local.id].coordinates == LastWithId(requested, id).value.coordinates
  }

  /** The first resource of those read at the start that connects to the same place. */
  function FirstMatch<C(==)>(current: seq<Resource<C>>, coordinates: C): Option<Resource<C>> {
    if |current| == 0 then None
    else if current[0].coordinates == coordinates then Some(current[0])
    else FirstMatch(current[1..], coordinates)
  }

  /** Position `k` is the first with these coordinates. */
  ghost predicate IsFirstAt<C>(current: seq<Resource<C>>, coordinates: C, k: nat) {
    k < |current| && current[k].coordinates == coordinates && forall i :: 0 <= i < k ==> current[i].coordinates != coordinates
  }

  lemma {:induction false} FirstIsMatch<C>(current: seq<Resource<C>>, coordinates: C, k: nat)
    requires IsFirstAt(current, coordinates, k)
    ensures FirstMatch(current, coordinates) == Some(current[k])
  {
    if k > 0 {
      assert current[0].coordinates != coordinates;
      assert IsFirstAt(current[1..], coordinates, k - 1);
      FirstIsMatch(current[1..], coordinates, k - 1);
    }
  }

  lemma {:induction false} NoMatch<C>(current: seq<Resource<C>>, coordinates: C)
    requires forall i :: 0 <= i < |current| ==> current[i].coordinates != coordinates
    ensures FirstMatch(current, coordinates) == None
  {
    if |current| != 0 {
      NoMatch(current[1..], coordinates);
    }
  }

  predicate NameIsUsed<C>(current: seq<Resource<C>>, name: string) {
    exists k :: 0 <= k < |current| && current[k].name == name
  }

  /** The name a new resource gets: against a match only the name of the match counts, otherwise all names. */
  function NewName<C(==)>(current: seq<Resource<C>>, resource: Resource<C>, suffix: string): string {
    match FirstMatch(current, resource.coordinates)
    case Some(same) => if same.name == resource.name then same.name + "-" + suffix else resource.name
    case None => if NameIsUsed(current, resource.name) then resource.name + "-" + suffix else resource.name
  }

  /** The requested resource is already stored, under the same id and coordinates. */
  predicate IsKept<C(==)>(current: seq<Resource<C>>, resource: Resource<C>) {
    var same := FirstMatch(current, resource.coordinates);
    same.Some? && same.value.id == resource.id
  }

  /** The resource is stored anew, under a name that was used at the start or that the request has just used. */
  predicate Collides<C(==)>(current: seq<Resource<C>>, requested: seq<Resource<C>>, suffixes: seq<string>, i: nat)
    requires |suffixes| == |requested| && i < |requested|
  {
    && !IsKept(current, requested[i])
    && var name := NewName(current, requested[i], suffixes[i]);
       NameIsUsed(current, name) || IsPut(current, requested, suffixes, i, name)
  }

  /** Among the first `n` requested resources one is stored anew under this name. */
  predicate IsPut<C(==)>(current: seq<Resource<C>>, requested: seq<Resource<C>>, suffixes: seq<string>, n: nat, name: string)
    requires |suffixes| == |requested| && n <= |requested|
  {
    exists j :: 0 <= j < n && !IsKept(current, requested[j]) && NewName(current, requested[j], suffixes[j]) == name
  }

  ghost predicate NoneCollides<C>(current: seq<Resource<C>>, requested: seq<Resource<C>>, suffixes: seq<string>, n: nat)
    requires |suffixes| == |requested| && n <= |requested|
  {
    forall i :: 0 <= i < n ==> !Collides(current, requested, suffixes, i)
  }

  predicate AnyCollides<C(==)>(current: seq<Resource<C>>, requested: seq<Resource<C>>, suffixes: seq<string>)
    requires |suffixes| == |requested|
  {
    exists i :: 0 <= i < |requested| && Collides(current, requested, suffixes, i)
  }

  // ----- collisions in terms of the request

  /** Stored anew under its own name: nothing matches and the name is free, or the match has another name. */
  predicate KeepsItsName<C(==)>(current: seq<Resource<C>>, resource: Resource<C>) {
    match FirstMatch(current, resource.coordinates)
    case Some(same) => same.id != resource.id && same.name != resource.name
    case None => !NameIsUsed(current, resource.name)
  }

  /** The random numbers do what they are for: a suffixed name is like no other. */
  ghost predicate SuffixesAreFresh<C>(current: seq<Resource<C>>, requested: seq<Resource<C>>, suffixes: seq<string>)
    requires |suffixes| == |requested|
  {
    forall i :: 0 <= i < |requested| ==>
      var name := requested[i].name + "-" + suffixes[i];
      && !NameIsUsed(current, name)
      && forall j :: 0 <= j < |requested| && j != i ==>
           requested[j].name != name && requested[j].name + "-" + suffixes[j] != name
  }

  /**
   By position: a resource is kept exactly if the first one read at its coordinates has its id. Put anew,
   it loses its name exactly to that one, or when there is none, to any of that name.
   */
  lemma MatchDecides<C>(current: seq<Resource<C>>, resource: Resource<C>, suffix: string, k: nat)
    requires IsFirstAt(current, resource.coordinates, k)
    ensures IsKept(current, resource) <==> current[k].id == resource.id
    ensures NewName(current, resource, suffix) ==
              if current[k].name == resource.name then resource.name + "-" + suffix else resource.name
  {
    FirstIsMatch(current, resource.coordinates, k);
  }

  lemma NoMatchDecides<C>(current: seq<Resource<C>>, resource: Resource<C>, suffix: string)
    requires forall i :: 0 <= i < |current| ==> current[i].coordinates != resource.coordinates
    ensures !IsKept(current, resource)
    ensures NewName(current, resource, suffix) ==
              if exists i :: 0 <= i < |current| && current[i].name == resource.name
              then resource.name + "-" + suffix else resource.name
  {
    NoMatch(current, resource.coordinates);
  }

  /**
   When the suffixed name is free, a new resource gets a name that was used at the start exactly if its
   coordinates match one stored resource and its name another.
   */
  lemma NewNameIsUsed<C>(current: seq<Resource<C>>, resource: Resource<C>, suffix: string)
    requires !NameIsUsed(current, resource.name + "-" + suffix)
    ensures NameIsUsed(current, NewName(current, resource, suffix)) <==>
              && FirstMatch(current, resource.coordinates).Some?
              && FirstMatch(current, resource.coordinates).value.name != resource.name
              && NameIsUsed(current, resource.name)
  {
  }

  lemma NameStays<C>(current: seq<Resource<C>>, resource: Resource<C>, suffix: string)
    ensures !IsKept(current, resource) ==>
              (NewName(current, resource, suffix) == resource.name <==> KeepsItsName(current, resource))
    ensures NewName(current, resource, suffix) in {resource.name, resource.name + "-" + suffix}
  {
    assert |resource.name + "-" + suffix| > |resource.name|;
  }

  /**
   Exactly when an import fails, with fresh suffixes: some resource is stored anew under its own name,
   and that name belongs to a stored resource (its coordinates match one and its name another), or to an
   earlier resource of the request that is stored anew under its own name as well.
   */
  lemma ImportFailsExactly<C>(current: seq<Resource<C>>, requested: seq<Resource<C>>, suffixes: seq<string>)
    requires |suffixes| == |requested| && SuffixesAreFresh(current, requested, suffixes)
    ensures AnyCollides(current, requested, suffixes) <==>
              exists i :: 0 <= i < |requested| && KeepsItsName(current, requested[i])
                && (|| (FirstMatch(current, requested[i].coordinates).Some? && NameIsUsed(current, requested[i].name))
                    || exists j :: 0 <= j < i && KeepsItsName(current, requested[j]) && requested[j].name == requested[i].name)
  {
    forall i | 0 <= i < |requested| && Collides(current, requested, suffixes, i)
      ensures KeepsItsName(current, requested[i])
      ensures || (FirstMatch(current, requested[i].coordinates).Some? && NameIsUsed(current, requested[i].name))
              || exists j :: 0 <= j < i && KeepsItsName(current, requested[j]) && requested[j].name == requested[i].name
    {
      CollisionKeepsNames(current, requested, suffixes, i);
    }
    forall i | 0 <= i < |requested| && KeepsItsName(current, requested[i])
      && (|| (FirstMatch(current, requested[i].coordinates).Some? && NameIsUsed(current, requested[i].name))
          || exists j :: 0 <= j < i && KeepsItsName(current, requested[j]) && requested[j].name == requested[i].name)
      ensures Collides(current, requested, suffixes, i)
    {
      NameStays(current, requested[i], suffixes[i]);
      if j :| 0 <= j < i && KeepsItsName(current, requested[j]) && requested[j].name == requested[i].name {
        NameStays(current, requested[j], suffixes[j]);
        assert IsPut(current, requested, suffixes, i, requested[i].name);
      }
    }
  }

  lemma CollisionKeepsNames<C>(current: seq<Resource<C>>, requested: seq<Resource<C>>, suffixes: seq<string>, i: nat)
    requires |suffixes| == |requested| && SuffixesAreFresh(current, requested, suffixes)
    requires i < |requested| && Collides(current, requested, suffixes, i)
    ensures KeepsItsName(current, requested[i])
    ensures || (FirstMatch(current, requested[i].coordinates).Some? && NameIsUsed(current, requested[i].name))
            || exists j :: 0 <= j < i && KeepsItsName(current, requested[j]) && requested[j].name == requested[i].name
  {
    var name := NewName(current, requested[i], suffixes[i]);
    NameStays(current, requested[i], suffixes[i]);
    if !NameIsUsed(current, name) {
      var j :| 0 <= j < i && !IsKept(current, requested[j]) && NewName(current, requested[j], suffixes[j]) == name;
      NameStays(current, requested[j], suffixes[j]);
    }
  }

  /** Two resources of one name in a request: on an empty store the second one is rejected. */
  lemma TwoOfOneNameCollide<C>(first: Resource<C>, second: Resource<C>, suffixes: seq<string>)
    requires first.name == second.name && |suffixes| == 2
    ensures AnyCollides([], [first, second], suffixes)
    ensures !AnyCollides([], [first], suffixes[..1]) && !AnyCollides([], [second], suffixes[1..])
  {
    var requested := [first, second];
    assert !IsKept([], requested[0]) && NewName([], requested[0], suffixes[0]) == first.name;
    assert IsPut([], requested, suffixes, 1, first.name);
    assert Collides([], requested, suffixes, 1);
  }

  ghost predicate Keeps<C>(before: map<int, Resource<C>>, after: map<int, Resource<C>>) {
    forall id :: id in before ==> id in after && after[id] == before[id]
  }

  datatype ImportError = UnknownResourceType | DuplicateName(name: string)

  predicate NameIsTaken<C>(store: map<int, Resource<C>>, name: string) {
    exists id :: id in store && store[id].name == name
  }

  /** All stored resources, in some order. */
  ghost predicate IsListing<C>(current: seq<Resource<C>>, store: map<int, Resource<C>>) {
    && IsPart(current, store)
    && (forall id :: id in store ==> store[id] in current)
  }

  /** Exactly the requested ids are mapped, each to a local resource with its coordinates. */
  ghost predicate IdsAre<C>(ids: map<int, ResourceId>, requested: seq<Resource<C>>, store: map<int, Resource<C>>,
      resourceType: ResourceType)
  {
    && (forall id :: id in ids <==> LastWithId(requested, id).Some?)
    && forall id :: id in ids ==> IsImported(requested, store, id, ids[id]) && ids[id].resourceType == resourceType
  }

  /** Every id is mapped to itself. */
  ghost predicate IsIdentity(ids: map<int, ResourceId>) {
    forall id :: id in ids ==> ids[id].id == id
  }

  /** The first `n` requested resources are stored already. */
  ghost predicate AllKept<C>(current: seq<Resource<C>>, requested: seq<Resource<C>>, n: nat)
    requires n <= |requested|
  {
    forall i :: 0 <= i < n ==> IsKept(current, requested[i])
  }

  /** As long as everything requested is stored already, nothing changes. */
  ghost predicate Unchanged<C>(current: seq<Resource<C>>, requested: seq<Resource<C>>, n: nat,
      start: map<int, Resource<C>>, store: map<int, Resource<C>>, ids: map<int, ResourceId>)
    requires n <= |requested|
  {
    AllKept(current, requested, n) ==> store == start && IsIdentity(ids)
  }

  lemma UnchangedOneMore<C>(current: seq<Resource<C>>, requested: seq<Resource<C>>, i: nat, start: map<int, Resource<C>>,
      before: map<int, Resource<C>>, after: map<int, Resource<C>>, ids: map<int, ResourceId>, local: ResourceId)
    requires i < |requested| && Unchanged(current, requested, i, start, before, ids)
    requires IsKept(current, requested[i]) ==> after == before && local.id == requested[i].id
    ensures Unchanged(current, requested, i + 1, start, after, ids[requested[i].id := local])
  {
    if AllKept(current, requested, i + 1) {
      assert AllKept(current, requested, i) && IsKept(current, requested[i]);
    }
  }

  lemma KeptNeverCollide<C>(current: seq<Resource<C>>, requested: seq<Resource<C>>, suffixes: seq<string>)
    requires |suffixes| == |requested| && AllKept(current, requested, |requested|)
    ensures !AnyCollides(current, requested, suffixes)
  {
  }

  lemma IdsOneMore<C>(ids: map<int, ResourceId>, requested: seq<Resource<C>>, i: nat,
      before: map<int, Resource<C>>, after: map<int, Resource<C>>, local: ResourceId)
    requires i < |requested| && IdsAre(ids, requested[..i], before, local.resourceType) && Keeps(before, after)
    requires local.id in after && after[local.id].coordinates == requested[i].coordinates
    ensures IdsAre(ids[requested[i].id := local], requested[..i + 1], after, local.resourceType)
  {
    var more := ids[requested[i].id := local];
    assert requested[..i + 1][..i] == requested[..i];
    forall id ensures id in more <==> LastWithId(requested[..i + 1], id).Some? {
      assert LastWithId(requested[..i + 1], id) ==
               if requested[i].id == id then Some(requested[i]) else LastWithId(requested[..i], id);
    }
    forall id | id in more
      ensures IsImported(requested[..i + 1], after, id, more[id]) && more[id].resourceType == local.resourceType
    {
      assert LastWithId(requested[..i + 1], id) ==
               if requested[i].id == id then Some(requested[i]) else LastWithId(requested[..i], id);
    }
  }

  ghost predicate IsPart<C>(current: seq<Resource<C>>, store: map<int, Resource<C>>) {
    forall c :: c in current ==> c.id in store && store[c.id] == c
  }

  /** The taken names are those used at the start and those of the first `n` requested resources put. */
  ghost predicate NamesAre<C>(store: map<int, Resource<C>>, current: seq<Resource<C>>,
      requested: seq<Resource<C>>, suffixes: seq<string>, n: nat)
    requires |suffixes| == |requested| && n <= |requested|
  {
    forall name :: NameIsTaken(store, name) <==>
      NameIsUsed(current, name) || IsPut(current, requested, suffixes, n, name)
  }

  lemma ListedNames<C>(current: seq<Resource<C>>, store: map<int, Resource<C>>,
      requested: seq<Resource<C>>, suffixes: seq<string>)
    requires IsListing(current, store) && |suffixes| == |requested|
    ensures NamesAre(store, current, requested, suffixes, 0)
  {
    forall name ensures NameIsTaken(store, name) <==> NameIsUsed(current, name) {
      if id :| id in store && store[id].name == name {
        var k :| 0 <= k < |current| && current[k] == store[id];
      }
      if k :| 0 <= k < |current| && current[k].name == name {
        assert current[k] in current;
      }
    }
  }

  /** No two of the stored resources connect to the same place. */
  ghost predicate OnePerCoordinates<C>(current: seq<Resource<C>>) {
    forall i, j :: 0 <= i < |current| && 0 <= j < |current| && current[i].coordinates == current[j].coordinates ==>
      current[i] == current[j]
  }

  lemma ListingIsKept<C>(current: seq<Resource<C>>, requested: seq<Resource<C>>, store: map<int, Resource<C>>)
    requires IsListing(current, store) && IsListing(requested, store) && OnePerCoordinates(current)
    ensures AllKept(current, requested, |requested|)
  {
    forall i | 0 <= i < |requested| ensures IsKept(current, requested[i]) {
      assert requested[i] in requested;
      var k :| 0 <= k < |current| && current[k] == requested[i];
      MatchIsListed(current, requested[i].coordinates, k);
    }
  }

  lemma {:induction false} MatchIsListed<C>(current: seq<Resource<C>>, coordinates: C, k: nat)
    requires k < |current| && current[k].coordinates == coordinates
    ensures FirstMatch(current, coordinates).Some?
    ensures FirstMatch(current, coordinates).value in current
    ensures FirstMatch(current, coordinates).value.coordinates == coordinates
  {
    if current[0].coordinates != coordinates {
      MatchIsListed(current[1..], coordinates, k - 1);
    }
  }

  class ResourceRepository<C(==)> {
    const resourceType: ResourceType
    var store: map<int, Resource<C>>
    var nextId: int

    ghost predicate Valid()
      reads this
    {
      && (forall id :: id in store ==> store[id].id == id < nextId)
      && (forall a, b :: a in store && b in store && a != b ==> store[a].name != store[b].name)
    }

    constructor (resourceType: ResourceType)
      ensures Valid() && store == map[] && this.resourceType == resourceType
    {
      this.resourceType, store, nextId := resourceType, map[], 0;
    }

    /** `putNewResource`: the id of the argument is replaced by a fresh one; the name index is unique. */
    method PutNew(resource: Resource<C>) returns (r: Result<Resource<C>, ImportError>)
      requires Valid()
      modifies this
      ensures Valid() && Keeps(old(store), store)
      ensures r.Failure? <==> NameIsTaken(old(store), resource.name)
      ensures r.Failure? ==> store == old(store) && r.error == ImportError.DuplicateName(resource.name)
      ensures r.Success? ==>
                && r.value.id !in old(store) && store == old(store)[r.value.id := r.value]
                && r.value.name == resource.name && r.value.coordinates == resource.coordinates
    {
      if id :| id in store && store[id].name == resource.name {
        return Failure(ImportError.DuplicateName(resource.name));
      }
      var stored := resource.(id := nextId);
      store := store[nextId := stored];
      nextId := nextId + 1;
      r := Success(stored);
    }

    static method FindByCoordinates(current: seq<Resource<C>>, coordinates: C) returns (found: Option<Resource<C>>)
      ensures found == FirstMatch(current, coordinates)
      ensures found.Some? ==> found.value in current && found.value.coordinates == coordinates
    {
      assert current[0..] == current;
      for i := 0 to |current|
        invariant FirstMatch(current[i..], coordinates) == FirstMatch(current, coordinates)
      {
        if current[i].coordinates == coordinates {
          return Some(current[i]);
        }
        assert current[i..][1..] == current[i + 1..];
      }
      found := None;
    }

    static method IsNameUsed(current: seq<Resource<C>>, name: string) returns (used: bool)
      ensures used <==> NameIsUsed(current, name)
    {
      for i := 0 to |current|
        invariant forall k :: 0 <= k < i ==> current[k].name != name
      {
        if current[i].name == name {
          return true;
        }
      }
      used := false;
    }

    /** One requested resource; `suffix` is the random number that a used name gets. */
    method ImportOne(current: seq<Resource<C>>, resource: Resource<C>, suffix: string)
      returns (r: Result<ResourceId, ImportError>)
      requires Valid()
      requires IsPart(current, store)
      modifies this
      ensures Valid() && Keeps(old(store), store)
      ensures IsKept(current, resource) ==>
                store == old(store) && r == Success(ResourceId(resource.id, resource.name, resourceType))
      ensures r.Failure? <==> !IsKept(current, resource) && NameIsTaken(old(store), NewName(current, resource, suffix))
      ensures r.Failure? ==> store == old(store) && r.error.DuplicateName?
      ensures r.Success? ==>
                && r.value.id in store && store[r.value.id].coordinates == resource.coordinates
                && r.value.resourceType == resourceType
      ensures r.Success? && !IsKept(current, resource) ==>
                && r.value.id !in old(store) && r.value.name == NewName(current, resource, suffix)
                && store == old(store)[r.value.id := Resource(r.value.id, r.value.name, resource.coordinates)]
    {
      var found := FindByCoordinates(current, resource.coordinates);
      var name := resource.name;
      match found {
        case Some(same) =>
          if same.id == resource.id {
            return Success(ResourceId(resource.id, resource.name, resourceType));
          }
          name := if same.name == resource.name then same.name + "-" + suffix else resource.name;
        case None =>
          var used := IsNameUsed(current, resource.name);
          name := if used then resource.name + "-" + suffix else resource.name;
      }
      var put := PutNew(resource.(name := name));
      match put
      case Success(stored) => r := Success(ResourceId(stored.id, stored.name, resourceType));
      case Failure(error) => r := Failure(error);
    }

    /** All requested resources against the resources read at the start; what was put before a failure stays. */
    method Import(current: seq<Resource<C>>, requested: seq<Resource<C>>, suffixes: seq<string>)
      returns (r: Result<map<int, ResourceId>, ImportError>)
      requires Valid() && |suffixes| == |requested| && IsListing(current, store)
      modifies this
      ensures Valid() && Keeps(old(store), store)
      ensures r.Failure? <==> AnyCollides(current, requested, suffixes)
      ensures r.Failure? ==> r.error.DuplicateName?
      ensures r.Success? ==> IdsAre(r.value, requested, store, resourceType)
      // With one resource per coordinates, importing what is stored changes nothing.
      ensures IsListing(requested, old(store)) && OnePerCoordinates(current) ==>
                && r.Success? && store == old(store)
                && IsIdentity(r.value)
    {
      ghost var start := store;
      if IsListing(requested, store) && OnePerCoordinates(current) {
        ListingIsKept(current, requested, store);
        KeptNeverCollide(current, requested, suffixes);
      }
      var ids: map<int, ResourceId> := map[];
      ListedNames(current, store, requested, suffixes);
      for i := 0 to |requested|
        invariant Valid() && Keeps(old(store), store)
        invariant IsPart(current, store) && NamesAre(store, current, requested, suffixes, i)
        invariant NoneCollides(current, requested, suffixes, i)
        invariant IdsAre(ids, requested[..i], store, resourceType)
        invariant Unchanged(current, requested, i, start, store, ids)
      {
        ghost var before := store;
        var local := ImportOne(current, requested[i], suffixes[i]);
        CollidesNow(current, requested, suffixes, i, before);
        if local.Failure? {
          return Failure(local.error);
        }
        PutOneMore(current, requested, suffixes, i, before, store, local.value.id);
        IdsOneMore(ids, requested, i, before, store, local.value);
        UnchangedOneMore(current, requested, i, start, before, store, ids, local.value);
        ids := ids[requested[i].id := local.value];
      }
      assert requested[..|requested|] == requested;
      r := Success(ids);
    }
  }

  /** The next put is rejected exactly if the resource collides. */
  lemma CollidesNow<C>(current: seq<Resource<C>>, requested: seq<Resource<C>>, suffixes: seq<string>, i: nat,
      store: map<int, Resource<C>>)
    requires |suffixes| == |requested| && i < |requested|
    requires NamesAre(store, current, requested, suffixes, i) && NoneCollides(current, requested, suffixes, i)
    ensures var collides := !IsKept(current, requested[i]) && NameIsTaken(store, NewName(current, requested[i], suffixes[i]));
            && (collides ==> AnyCollides(current, requested, suffixes))
            && (!collides ==> NoneCollides(current, requested, suffixes, i + 1))
  {
    var name := NewName(current, requested[i], suffixes[i]);
    assert NameIsTaken(store, name) <==> NameIsUsed(current, name) || IsPut(current, requested, suffixes, i, name);
    assert Collides(current, requested, suffixes, i) <==> !IsKept(current, requested[i]) && NameIsTaken(store, name);
  }

  /** The names taken after one more requested resource. */
  lemma PutOneMore<C>(current: seq<Resource<C>>, requested: seq<Resource<C>>, suffixes: seq<string>, i: nat,
      before: map<int, Resource<C>>, after: map<int, Resource<C>>, id: int)
    requires |suffixes| == |requested| && i < |requested|
    requires NamesAre(before, current, requested, suffixes, i)
    requires IsKept(current, requested[i]) ==> after == before
    requires !IsKept(current, requested[i]) ==>
               && id !in before && id in after && after == before[id := after[id]]
               && after[id].name == NewName(current, requested[i], suffixes[i])
    ensures NamesAre(after, current, requested, suffixes, i + 1)
  {
    forall name
      ensures NameIsTaken(after, name) <==> NameIsUsed(current, name) || IsPut(current, requested, suffixes, i + 1, name)
    {
      assert NameIsTaken(before, name) <==> NameIsUsed(current, name) || IsPut(current, requested, suffixes, i, name);
      assert IsPut(current, requested, suffixes, i + 1, name) <==>
               || IsPut(current, requested, suffixes, i, name)
               || (!IsKept(current, requested[i]) && NewName(current, requested[i], suffixes[i]) == name);
      if !IsKept(current, requested[i]) {
        TakenAfterPut(before, after, id, name);
      }
    }
  }

  lemma TakenAfterPut<C>(before: map<int, Resource<C>>, after: map<int, Resource<C>>, id: int, name: string)
    requires id !in before && id in after && after == before[id := after[id]]
    ensures NameIsTaken(after, name) <==> NameIsTaken(before, name) || after[id].name == name
  {
    if i :| i in before && before[i].name == name {
      assert after[i].name == name;
    }
  }

  // ----- the artifacts

  /** An artifact refers to a resource by id and type; the stored one to a local resource, or to none. */
  datatype Artifact = Artifact(name: string, version: string, projectId: int, externalId: string, resource: ResourceId)

  datatype StoredArtifact = StoredArtifact(
    name: string, version: string, projectId: int, externalId: string, resource: Option<ResourceId>)

  function Lookup(ids: map<int, ResourceId>, id: int): Option<ResourceId> {
    if id in ids then Some(ids[id]) else None
  }

  class ArtifactImport {
    const artifactsResources: ResourceRepository<ArtifactsCoordinates>
    const openShiftResources: ResourceRepository<OpenShiftCoordinates>
    var stored: seq<StoredArtifact>

    ghost predicate Valid()
      reads this, artifactsResources, openShiftResources
    {
      && artifactsResources as object != openShiftResources as object
      && artifactsResources.Valid() && openShiftResources.Valid()
    }

    constructor (artifactsResources: ResourceRepository<ArtifactsCoordinates>, openShiftResources: ResourceRepository<OpenShiftCoordinates>)
      requires artifactsResources as object != openShiftResources as object
      requires artifactsResources.Valid() && openShiftResources.Valid()
      ensures Valid() && stored == []
      ensures this.artifactsResources == artifactsResources && this.openShiftResources == openShiftResources
    {
      this.artifactsResources, this.openShiftResources, stored := artifactsResources, openShiftResources, [];
    }

    /** The stored form of an artifact: same fields, and its resource available locally at the same coordinates. */
    ghost predicate IsStoredAs(artifactsRequested: seq<Resource<ArtifactsCoordinates>>,
        openShiftRequested: seq<Resource<OpenShiftCoordinates>>, artifact: Artifact, s: StoredArtifact)
      reads this, artifactsResources, openShiftResources
    {
      && s.name == artifact.name && s.version == artifact.version
      && s.projectId == artifact.projectId && s.externalId == artifact.externalId
      && match artifact.resource.resourceType
         case ArtifactsType =>
           if LastWithId(artifactsRequested, artifact.resource.id).None? then s.resource == None
           else s.resource.Some? && IsImported(artifactsRequested, artifactsResources.store, artifact.resource.id, s.resource.value)
         case OpenShiftType =>
           if LastWithId(openShiftRequested, artifact.resource.id).None? then s.resource == None
           else s.resource.Some? && IsImported(openShiftRequested, openShiftResources.store, artifact.resource.id, s.resource.value)
         case OtherType(_) => false
    }

    /**
     For every request existing resources are unchanged. It fails exactly if a new resource collides or
     an artifact has an unknown resource type, and then stores no artifact. Otherwise every artifact is
     stored, and refers to a local resource with the coordinates of the (last) requested one of its id,
     or to none when no resource of that id was requested.
     */
    method AddExternalArtifacts(
        artifactsCurrent: seq<Resource<ArtifactsCoordinates>>, openShiftCurrent: seq<Resource<OpenShiftCoordinates>>,
        artifactsRequested: seq<Resource<ArtifactsCoordinates>>, openShiftRequested: seq<Resource<OpenShiftCoordinates>>,
        artifacts: seq<Artifact>, artifactsSuffixes: seq<string>, openShiftSuffixes: seq<string>)
      returns (r: Result<(), ImportError>)
      requires Valid()
      requires IsListing(artifactsCurrent, artifactsResources.store)
      requires IsListing(openShiftCurrent, openShiftResources.store)
      requires |artifactsSuffixes| == |artifactsRequested| && |openShiftSuffixes| == |openShiftRequested|
      modifies this, artifactsResources, openShiftResources
      ensures Valid()
      ensures Keeps(old(artifactsResources.store), artifactsResources.store)
      ensures Keeps(old(openShiftResources.store), openShiftResources.store)
      ensures r.Failure? && r.error.DuplicateName? <==>
                || AnyCollides(artifactsCurrent, artifactsRequested, artifactsSuffixes)
                || AnyCollides(openShiftCurrent, openShiftRequested, openShiftSuffixes)
      ensures r == Failure(UnknownResourceType) <==>
                && !(r.Failure? && r.error.DuplicateName?)
                && exists a :: a in artifacts && a.resource.resourceType.OtherType?
      ensures r.Failure? ==> stored == old(stored)
      ensures r.Success? ==>
                && |stored| == |old(stored)| + |artifacts| && stored[..|old(stored)|] == old(stored)
                && forall i :: 0 <= i < |artifacts| ==>
                     IsStoredAs(artifactsRequested, openShiftRequested, artifacts[i], stored[|old(stored)| + i])
    {
      var artifactsImport := artifactsResources.Import(artifactsCurrent, artifactsRequested, artifactsSuffixes);
      if artifactsImport.Failure? {
        return Failure(artifactsImport.error);
      }
      var openShiftImport := openShiftResources.Import(openShiftCurrent, openShiftRequested, openShiftSuffixes);
      if openShiftImport.Failure? {
        return Failure(openShiftImport.error);
      }
      var artifactsIds, openShiftIds := artifactsImport.value, openShiftImport.value;
      var mapped := MapArtifacts(artifactsRequested, openShiftRequested, artifactsIds, openShiftIds, artifacts);
      if mapped.Failure? {
        return Failure(mapped.error);
      }
      stored := stored + mapped.value;
      r := Success(());
    }

    /** The artifacts with their resources replaced by the local ones. */
    method MapArtifacts(
        ghost artifactsRequested: seq<Resource<ArtifactsCoordinates>>,
        ghost openShiftRequested: seq<Resource<OpenShiftCoordinates>>,
        artifactsIds: map<int, ResourceId>, openShiftIds: map<int, ResourceId>, artifacts: seq<Artifact>)
      returns (r: Result<seq<StoredArtifact>, ImportError>)
      requires IdsAre(artifactsIds, artifactsRequested, artifactsResources.store, artifactsResources.resourceType)
      requires IdsAre(openShiftIds, openShiftRequested, openShiftResources.store, openShiftResources.resourceType)
      ensures r.Failure? <==> exists a :: a in artifacts && a.resource.resourceType.OtherType?
      ensures r.Failure? ==> r.error == UnknownResourceType
      ensures r.Success? ==>
                && |r.value| == |artifacts|
                && forall i :: 0 <= i < |artifacts| ==>
                     IsStoredAs(artifactsRequested, openShiftRequested, artifacts[i], r.value[i])
    {
      var mapped: seq<StoredArtifact> := [];
      for i := 0 to |artifacts|
        invariant |mapped| == i
        invariant forall k :: 0 <= k < i ==>
                    && !artifacts[k].resource.resourceType.OtherType?
                    && IsStoredAs(artifactsRequested, openShiftRequested, artifacts[k], mapped[k])
      {
        var a := artifacts[i];
        if a.resource.resourceType.OtherType? {
          return Failure(UnknownResourceType);
        }
        var local := if a.resource.resourceType.ArtifactsType? then Lookup(artifactsIds, a.resource.id)
                     else Lookup(openShiftIds, a.resource.id);
        mapped := mapped + [StoredArtifact(a.name, a.version, a.projectId, a.externalId, local)];
      }
      r := Success(mapped);
    }
  }

  /** For distinct ids "the last requested resource" of an artifact is simply the one it refers to. */
  lemma ImportedArtifactKeepsCoordinates<C>(requested: seq<Resource<C>>, store: map<int, Resource<C>>, k: nat, local: ResourceId)
    requires forall a, b :: 0 <= a < b < |requested| ==> requested[a].id != requested[b].id
    requires k < |requested| && IsImported(requested, store, requested[k].id, local)
    ensures local.id in store && store[local.id].coordinates == requested[k].coordinates
  {
    LastOfDistinct(requested, k);
  }
}
