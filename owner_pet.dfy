/**
 * The owner/pet domain model of lib/owner_pet.py.
 *
 * `Owner` and `Pet` are classes, so that "this pet belongs to this owner" is
 * reference identity, as Python's `is` is. The class-level list `Pet.all` of
 * the source is an explicit `Registry` object that is passed to the
 * operations that read or extend it. Construction can fail in the source
 * (it raises); here the static `Create` methods return a `Result`.
 */
module OwnerPet {
  import opened PyStr
  import opened Seqs

  /** Why a construction was rejected. The source raises a plain `Exception`
      in both cases; only the check that fired is kept, not the message. */
  datatype ValidationError = BlankName | UnknownPetType

  datatype Result<T> = Ok(value: T) | Err(error: ValidationError)

  /** The closed list of pet types, in the source's order. */
  const PetTypes: seq<string> := ["dog", "cat", "rodent", "bird", "reptile", "exotic"]

  /** The name check shared by both classes: `name.strip()` is non-empty. */
  predicate ValidName(name: string)
    ensures ValidName(name) <==> !IsBlank(name)
  {
    Strip(name) != []
  }

  /** Exact, case-sensitive membership in `PetTypes`. */
  predicate IsPetType(t: string) {
    t in PetTypes
  }

  /** The type test neither folds case nor strips whitespace, and admits
      nothing outside the six listed types. */
  lemma PetTypeExact()
    ensures |PetTypes| == 6 && Distinct(PetTypes)
    ensures IsPetType("dog") && IsPetType("exotic")
    ensures !IsPetType("Dog") && !IsPetType(" dog") && !IsPetType("fish") && !IsPetType("")
  {
  }

  /** The process-wide list of every pet successfully constructed, in
      construction order. Nothing ever removes an entry. */
  class Registry {
    var all: seq<Pet>

    /** Each pet is registered once, and only after it passed validation. */
    ghost predicate Valid()
      reads this
    {
      Distinct(all) &&
      (forall p :: p in all ==> p.Valid())
    }

    /** The registry as it is when the process starts: empty. */
    constructor ()
      ensures Valid() && all == []
    {
      all := [];
    }
  }

  class Owner {
    const name: string

    predicate Valid() {
      !IsBlank(name)
    }

    /** Stores the name verbatim; `Create` has already checked it. */
    constructor (name: string)
      requires !IsBlank(name)
      ensures Valid() && this.name == name
    {
      this.name := name;
    }

    /** `Owner(name)`: fails exactly when the name is blank; otherwise a new
        owner holding the name untrimmed. */
    static method Create(name: string) returns (r: Result<Owner>)
      ensures r.Err? <==> IsBlank(name)
      ensures r.Err? ==> r.error == BlankName
      ensures r.Ok? ==> fresh(r.value) && r.value.Valid() && r.value.name == name
    {
      if !ValidName(name) {
        return Err(BlankName);
      }
      var o := new Owner(name);
      return Ok(o);
    }

    /** `pets()`: the registry entries whose owner is this very object, in
        registry order. */
    function Pets(reg: Registry): (r: seq<Pet>)
      reads reg, reg.all
      ensures forall p :: p in r ==> p in reg.all && p.owner == this
      ensures forall p :: p in reg.all && p.owner == this ==> p in r
      ensures forall p :: p in reg.all && p.owner == this ==> multiset(r)[p] == multiset(reg.all)[p]
      ensures IsSubsequence(r, reg.all)
      ensures reg.Valid() ==> Distinct(r)
    {
      SelectDistinct(reg.all, OwnerMap(reg.all), this);
      Select(reg.all, OwnerMap(reg.all), this)
    }

    /** `add_pet(pet)`: makes this owner the pet's owner; only that pet changes. */
    method AddPet(pet: Pet)
      modifies pet
      ensures pet.owner == this
      ensures old(pet.owner) == this ==> unchanged(pet)
    {
      pet.SetOwner(this);
    }

    /** `get_sorted_pets()`: this owner's pets, ordered by name with `<`,
        pets of equal name in registry order. */
    function GetSortedPets(reg: Registry): (r: seq<Pet>)
      reads reg, reg.all
      ensures SortedByName(r)
      ensures multiset(r) == multiset(Pets(reg))
      ensures forall k :: FilterName(r, k) == FilterName(Pets(reg), k)
    {
      SortByName(Pets(reg))
    }
  }

  class Pet {
    const name: string
    const petType: string
    var owner: Owner?

    predicate Valid() {
      !IsBlank(name) && IsPetType(petType)
    }

    /** The part of `Pet(...)` after validation: store the fields, then
        append the new pet to the registry. */
    constructor (reg: Registry, name: string, petType: string, owner: Owner?)
      requires reg.Valid() && !IsBlank(name) && IsPetType(petType)
      modifies reg
      ensures Valid() && this.name == name && this.petType == petType && this.owner == owner
      ensures reg.all == old(reg.all) + [this]
      ensures reg.Valid()
    {
      this.name := name;
      this.petType := petType;
      this.owner := owner;
      new;
      reg.all := reg.all + [this];
    }

    /** `Pet(name, pet_type, owner)`: the name is checked first, then the
        type; on failure the registry is untouched, on success the new pet is
        appended at its end. */
    static method Create(reg: Registry, name: string, petType: string, owner: Owner?) returns (r: Result<Pet>)
      requires reg.Valid()
      modifies reg
      ensures reg.Valid()
      ensures r.Err? <==> IsBlank(name) || petType !in PetTypes
      ensures r.Err? ==> r.error == (if IsBlank(name) then BlankName else UnknownPetType)
      ensures r.Err? ==> reg.all == old(reg.all)
      ensures r.Ok? ==> fresh(r.value) && r.value.Valid() && reg.all == old(reg.all) + [r.value]
      ensures r.Ok? ==> r.value.name == name && r.value.petType == petType && r.value.owner == owner
    {
      if !ValidName(name) {
        return Err(BlankName);
      }
      if !IsPetType(petType) {
        return Err(UnknownPetType);
      }
      var p := new Pet(reg, name, petType, owner);
      return Ok(p);
    }

    /** `set_owner(owner)`: overwrites the owner; setting the same owner
        again changes nothing. */
    method SetOwner(o: Owner)
      modifies this
      ensures owner == o
      ensures old(owner) == o ==> unchanged(this)
    {
      owner := o;
    }
  }

  /** A snapshot of the `owner` field of every pet in `ps`. */
  function OwnerMap(ps: seq<Pet>): map<Pet, Owner?>
    reads ps
  {
    map p | p in ps :: p.owner
  }

  /** The list comprehension of `pets()`, over a snapshot `owner` of the
      owner fields: the entries of `ps` whose owner is `o`, in order. */
  function Select(ps: seq<Pet>, owner: map<Pet, Owner?>, o: Owner): (r: seq<Pet>)
    requires forall p :: p in ps ==> p in owner
    ensures forall p :: p in r ==> p in ps && owner[p] == o
    ensures forall p :: p in ps && owner[p] == o ==> p in r
    ensures forall p :: p in ps && owner[p] == o ==> multiset(r)[p] == multiset(ps)[p]
    ensures IsSubsequence(r, ps)
  {
    if ps == [] then []
    else
      assert ps == [ps[0]] + ps[1..];
      if owner[ps[0]] == o then [ps[0]] + Select(ps[1..], owner, o) else Select(ps[1..], owner, o)
  }

  /** Filtering a list without repetitions gives a list without repetitions. */
  lemma {:induction false} SelectDistinct(ps: seq<Pet>, owner: map<Pet, Owner?>, o: Owner)
    requires forall p :: p in ps ==> p in owner
    ensures Distinct(ps) ==> Distinct(Select(ps, owner, o))
  {
    if ps != [] && Distinct(ps) {
      assert Distinct(ps[1..]);
      SelectDistinct(ps[1..], owner, o);
    }
  }

  /** The entries of `s` named `k`, in order: two orderings of the same pets
      agree on all of these exactly when pets of equal name keep their order. */
  function FilterName(s: seq<Pet>, k: string): (r: seq<Pet>)
    ensures forall p :: p in r ==> p in s && p.name == k
    ensures forall p :: p in s && p.name == k ==> p in r
  {
    if s == [] then [] else (if s[0].name == k then [s[0]] else []) + FilterName(s[1..], k)
  }

  lemma FilterNameHead(s: seq<Pet>)
    ensures s != [] ==> FilterName(s, s[0].name) == [s[0]] + FilterName(s[1..], s[0].name)
  {
  }

  /** No later pet has a name that is `<` an earlier one. */
  predicate SortedByName(s: seq<Pet>) {
    forall i, j :: 0 <= i < j < |s| ==> !Less(s[j].name, s[i].name)
  }

  /** Inserts `x` before the first pet whose name is not `<` its own, that
      is, before every pet of equal name already in `s`. */
  function InsertByName(x: Pet, s: seq<Pet>): (r: seq<Pet>)
    requires SortedByName(s)
    ensures SortedByName(r)
    ensures multiset(r) == multiset(s) + multiset{x}
    ensures forall k :: FilterName(r, k) == if x.name == k then [x] + FilterName(s, k) else FilterName(s, k)
  {
    if s == [] then [x]
    else if !Less(s[0].name, x.name) then
      InsertFront(x, s);
      [x] + s
    else
      var t := InsertByName(x, s[1..]);
      InsertBehind(x, s, t);
      [s[0]] + t
  }

  /** The first case of `InsertByName`: `x` goes in front. */
  lemma InsertFront(x: Pet, s: seq<Pet>)
    requires SortedByName(s) && s != [] && !Less(s[0].name, x.name)
    ensures SortedByName([x] + s)
  {
    forall p | p in s ensures !Less(p.name, x.name) {
      var j :| 0 <= j < |s| && s[j] == p;
      if j > 0 {
        NotLessTransitive(x.name, s[0].name, p.name);
      }
    }
    SortedCons(x, s);
  }

  /** The second case of `InsertByName`: `s[0]` stays in front of `t`, the
      insertion of `x` into the rest. */
  lemma InsertBehind(x: Pet, s: seq<Pet>, t: seq<Pet>)
    requires SortedByName(s) && s != [] && Less(s[0].name, x.name)
    requires SortedByName(t) && multiset(t) == multiset(s[1..]) + multiset{x}
    requires forall k :: FilterName(t, k) == if x.name == k then [x] + FilterName(s[1..], k) else FilterName(s[1..], k)
    ensures SortedByName([s[0]] + t)
    ensures multiset([s[0]] + t) == multiset(s) + multiset{x}
    ensures forall k :: FilterName([s[0]] + t, k) == if x.name == k then [x] + FilterName(s, k) else FilterName(s, k)
  {
    assert s == [s[0]] + s[1..];
    InsertBehindSorted(x, s, t);
    InsertBehindFilter(x, s, t);
  }

  lemma InsertBehindFilter(x: Pet, s: seq<Pet>, t: seq<Pet>)
    requires s != [] && Less(s[0].name, x.name)
    requires forall k :: FilterName(t, k) == if x.name == k then [x] + FilterName(s[1..], k) else FilterName(s[1..], k)
    ensures forall k :: FilterName([s[0]] + t, k) == if x.name == k then [x] + FilterName(s, k) else FilterName(s, k)
  {
    LessIrreflexive(x.name);
    forall k ensures FilterName([s[0]] + t, k) == if x.name == k then [x] + FilterName(s, k) else FilterName(s, k) {
      InsertBehindFilterAt(x, s, t, k);
    }
  }

  /** `InsertBehindFilter` for the pets of one name `k`. */
  lemma InsertBehindFilterAt(x: Pet, s: seq<Pet>, t: seq<Pet>, k: string)
    requires s != [] && s[0].name != x.name
    requires FilterName(t, k) == if x.name == k then [x] + FilterName(s[1..], k) else FilterName(s[1..], k)
    ensures FilterName([s[0]] + t, k) == if x.name == k then [x] + FilterName(s, k) else FilterName(s, k)
  {
    FilterNameCons(s[0], t, k);
    var h := if s[0].name == k then [s[0]] else [];
    assert FilterName(s, k) == h + FilterName(s[1..], k);
    if x.name == k {
      assert h == [];
    }
  }

  lemma InsertBehindSorted(x: Pet, s: seq<Pet>, t: seq<Pet>)
    requires SortedByName(s) && s != [] && Less(s[0].name, x.name)
    requires SortedByName(t) && multiset(t) == multiset(s[1..]) + multiset{x}
    ensures SortedByName([s[0]] + t)
  {
    LessAsymmetric(s[0].name, x.name);
    forall p | p in t ensures !Less(p.name, s[0].name) {
      assert p in multiset(t);
      assert p == x || p in s[1..];
    }
    SortedCons(s[0], t);
  }

  lemma FilterNameCons(a: Pet, t: seq<Pet>, k: string)
    ensures FilterName([a] + t, k) == (if a.name == k then [a] else []) + FilterName(t, k)
  {
    assert ([a] + t)[1..] == t;
  }

  /** Prepending a pet no later pet is smaller than keeps a list sorted. */
  lemma SortedCons(x: Pet, s: seq<Pet>)
    requires SortedByName(s)
    requires forall p :: p in s ==> !Less(p.name, x.name)
    ensures SortedByName([x] + s)
  {
    var r := [x] + s;
    forall i, j | 0 <= i < j < |r| ensures !Less(r[j].name, r[i].name) {
      assert r[j] == s[j - 1];
      if i > 0 {
        assert r[i] == s[i - 1];
      }
    }
  }

  /** Python's `sorted(ps, key=lambda p: p.name)`: a stable sort. */
  function SortByName(s: seq<Pet>): (r: seq<Pet>)
    ensures SortedByName(r)
    ensures multiset(r) == multiset(s)
    ensures forall k :: FilterName(r, k) == FilterName(s, k)
  {
    if s == [] then []
    else
      assert s == [s[0]] + s[1..];
      InsertByName(s[0], SortByName(s[1..]))
  }

  /** Two pets already in name order are left as they are. */
  lemma SortTwo(p: Pet, q: Pet)
    requires !Less(q.name, p.name)
    ensures SortByName([p, q]) == [p, q]
  {
    assert [p, q][1..] == [q] && [q][1..] == [];
  }

  /** Sorted by name and order-preserving within each name pins the result
      down: any stable sort by name, Python's included, returns what
      `SortByName` returns. */
  lemma {:induction false} StableSortUnique(a: seq<Pet>, b: seq<Pet>)
    requires SortedByName(a) && SortedByName(b)
    requires forall k :: FilterName(a, k) == FilterName(b, k)
    ensures a == b
  {
    if a == [] || b == [] {
      if a != [] {
        FilterNameHead(a);
        assert false;
      } else if b != [] {
        FilterNameHead(b);
        assert false;
      }
    } else {
      SortedHeadsEqual(a, b);
      forall k ensures FilterName(a[1..], k) == FilterName(b[1..], k) {
        FilterNameTail(a, b, k);
      }
      StableSortUnique(a[1..], b[1..]);
      assert a == [a[0]] + a[1..] && b == [b[0]] + b[1..];
    }
  }

  /** Two sorted lists with the same pets per name start with the same pet. */
  lemma {:induction false} SortedHeadsEqual(a: seq<Pet>, b: seq<Pet>)
    requires a != [] && b != []
    requires SortedByName(a) && SortedByName(b)
    requires forall k :: FilterName(a, k) == FilterName(b, k)
    ensures a[0] == b[0]
  {
    var ka, kb := a[0].name, b[0].name;
    FilterNameHead(a);
    FilterNameHead(b);
    assert a[0] in FilterName(b, ka);
    NoneBelowHead(a[0], b);
    assert b[0] in FilterName(a, kb);
    NoneBelowHead(b[0], a);
    LessTrichotomy(ka, kb);
  }

  /** No pet of a sorted list has a name below the name of its first pet. */
  lemma NoneBelowHead(p: Pet, s: seq<Pet>)
    requires SortedByName(s) && p in s
    ensures !Less(p.name, s[0].name)
  {
    var j :| 0 <= j < |s| && s[j] == p;
    if j == 0 {
      LessIrreflexive(p.name);
    }
  }

  /** Removing the same first pet from two lists keeps their lists per name equal. */
  lemma {:induction false} FilterNameTail(a: seq<Pet>, b: seq<Pet>, k: string)
    requires a != [] && b != [] && a[0] == b[0]
    requires FilterName(a, k) == FilterName(b, k)
    ensures FilterName(a[1..], k) == FilterName(b[1..], k)
  {
    var pre := if a[0].name == k then [a[0]] else [];
    assert FilterName(a, k) == pre + FilterName(a[1..], k);
    assert FilterName(b, k) == pre + FilterName(b[1..], k);
    assert FilterName(a[1..], k) == FilterName(a, k)[|pre|..];
    assert FilterName(b[1..], k) == FilterName(b, k)[|pre|..];
  }

  /** Changing the owner of `p` and nothing else leaves every owner's list
      as it was once `p` is taken out of it: no other pet enters, leaves or
      moves. */
  lemma {:induction false} SelectFrame(ps: seq<Pet>, before: map<Pet, Owner?>, after: map<Pet, Owner?>, p: Pet, o: Owner)
    requires forall q :: q in ps ==> q in before && q in after
    requires forall q :: q in ps && q != p ==> before[q] == after[q]
    ensures Without(Select(ps, after, o), p) == Without(Select(ps, before, o), p)
  {
    if ps != [] {
      var q, rest := ps[0], ps[1..];
      SelectFrame(rest, before, after, p, o);
      var a, b := Select(rest, after, o), Select(rest, before, o);
      assert Select(ps, after, o) == if after[q] == o then [q] + a else a;
      assert Select(ps, before, o) == if before[q] == o then [q] + b else b;
      WithoutCons(q, a, p);
      WithoutCons(q, b, p);
    }
  }

  /** `p.set_owner(o)` or `o.add_pet(p)` seen from the owners' side: `p` is
      in exactly its new owner's `pets()`, every other entry of every owner's
      `pets()` stays where it was, and the registry is untouched. */
  twostate lemma SetOwnerEffect(reg: Registry, p: Pet, o: Owner)
    requires unchanged(reg)
    requires forall q :: q in reg.all && q != p ==> old(q.owner) == q.owner
    requires p in reg.all
    ensures p in o.Pets(reg) <==> p.owner == o
    ensures Without(o.Pets(reg), p) == Without(old(o.Pets(reg)), p)
  {
    SelectFrame(reg.all, old(OwnerMap(reg.all)), OwnerMap(reg.all), p, o);
  }

  /** Ownership is identity: two different owners, even of equal name,
      never share a pet. */
  lemma DistinctOwnersDisjoint(reg: Registry, o1: Owner, o2: Owner)
    requires o1 != o2
    ensures forall p :: p in o1.Pets(reg) ==> p !in o2.Pets(reg)
  {
  }

  /** An owner who owns every registered pet gets the whole registry back. */
  lemma PetsAllOwned(reg: Registry, o: Owner)
    requires forall p :: p in reg.all ==> p.owner == o
    ensures o.Pets(reg) == reg.all
  {
    SelectAll(reg.all, OwnerMap(reg.all), o);
  }

  lemma {:induction false} SelectAll(ps: seq<Pet>, owner: map<Pet, Owner?>, o: Owner)
    requires forall p :: p in ps ==> p in owner && owner[p] == o
    ensures Select(ps, owner, o) == ps
  {
    if ps != [] {
      SelectAll(ps[1..], owner, o);
    }
  }

  lemma SelectCons(p: Pet, ps: seq<Pet>, owner: map<Pet, Owner?>, o: Owner)
    requires p in owner && forall q :: q in ps ==> q in owner
    ensures Select([p] + ps, owner, o) == (if owner[p] == o then [p] else []) + Select(ps, owner, o)
  {
    assert ([p] + ps)[1..] == ps;
  }

  /** `pets()` over a registry of one pet. */
  lemma PetsOfOne(reg: Registry, p: Pet, o: Owner)
    requires reg.all == [p]
    ensures o.Pets(reg) == if p.owner == o then [p] else []
  {
    assert reg.all[1..] == [];
  }

  /** `pets()` over a registry of two pets, in registry order. */
  lemma PetsOfTwo(reg: Registry, p: Pet, q: Pet, o: Owner)
    requires reg.all == [p, q]
    ensures o.Pets(reg) == (if p.owner == o then [p] else []) + (if q.owner == o then [q] else [])
  {
    var m := OwnerMap(reg.all);
    assert m[p] == p.owner && m[q] == q.owner;
    SelectCons(p, [q], m, o);
    SelectCons(q, [], m, o);
  }

  /** A pet without owner is in nobody's `pets()`. */
  lemma UnownedInNoPets(reg: Registry, p: Pet, o: Owner)
    requires p.owner == null
    ensures p !in o.Pets(reg)
  {
  }
}
