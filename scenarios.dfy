/**
 * Concrete scenarios of the owner/pet model, each starting from an empty
 * registry, with their outcomes proved.
 */
module Scenarios {
  import opened PyStr
  import opened OwnerPet

  /** `Owner("Alice")`, then `Pet("Rex", "dog", owner=alice)`: Alice's pets are `[rex]`. */
  method AliceAndRex() returns (alice: Owner, rex: Pet, pets: seq<Pet>)
    ensures rex.owner == alice && rex.name == "Rex"
    ensures pets == [rex]
  {
    var reg := new Registry();
    assert !IsWhitespace("Alice"[0]);
    var ro := Owner.Create("Alice");
    alice := ro.value;
    assert !IsWhitespace("Rex"[0]);
    var rp := Pet.Create(reg, "Rex", "dog", alice);
    rex := rp.value;
    PetsOfOne(reg, rex, alice);
    pets := alice.Pets(reg);
  }

  /** `Owner("Bob")`, `Pet("Fluffy", "cat")`, `Pet("Milo", "dog", owner=bob)`. */
  method FluffyAndMilo() returns (reg: Registry, bob: Owner, fluffy: Pet, milo: Pet)
    ensures fresh(reg) && fresh(fluffy) && fresh(milo)
    ensures reg.all == [fluffy, milo] && fluffy != milo
    ensures fluffy.name == "Fluffy" && fluffy.owner == null
    ensures milo.name == "Milo" && milo.owner == bob
  {
    reg := new Registry();
    assert !IsWhitespace("Bob"[0]);
    var ro := Owner.Create("Bob");
    bob := ro.value;
    assert !IsWhitespace("Fluffy"[0]);
    var rf := Pet.Create(reg, "Fluffy", "cat", null);
    fluffy := rf.value;
    assert !IsWhitespace("Milo"[0]);
    var rm := Pet.Create(reg, "Milo", "dog", bob);
    milo := rm.value;
  }

  /** Right after `FluffyAndMilo`, Fluffy has no owner and Bob has only Milo. */
  method BobBeforeAdd() returns (milo: Pet, before: seq<Pet>)
    ensures milo.name == "Milo" && before == [milo]
  {
    var reg, bob, fluffy;
    reg, bob, fluffy, milo := FluffyAndMilo();
    PetsOfTwo(reg, fluffy, milo, bob);
    before := bob.Pets(reg);
  }

  /** Continuing `FluffyAndMilo` with `bob.add_pet(fluffy)`: Bob's sorted
      pets are `[fluffy, milo]`. */
  method BobSortedPets() returns (fluffy: Pet, milo: Pet, sorted: seq<Pet>)
    ensures fluffy.name == "Fluffy" && milo.name == "Milo"
    ensures sorted == [fluffy, milo]
  {
    var reg, bob;
    reg, bob, fluffy, milo := FluffyAndMilo();
    bob.AddPet(fluffy);
    PetsOfTwo(reg, fluffy, milo, bob);
    sorted := bob.GetSortedPets(reg);
    SortTwo(fluffy, milo);
  }

  /** `Pet("X", "fish")` is rejected as an unknown type and registers nothing. */
  method FishRejected() returns (r: Result<Pet>, registered: seq<Pet>)
    ensures r == Err(UnknownPetType)
    ensures registered == []
  {
    var reg := new Registry();
    assert !IsWhitespace("X"[0]);
    r := Pet.Create(reg, "X", "fish", null);
    registered := reg.all;
  }

  /** `p.set_owner(bob)` for a pet of Alice's: it leaves Alice's pets and
      joins Bob's; setting Bob a second time leaves Bob's pets as they were. */
  method Reassign() returns (alicePets: seq<Pet>, bobPets: seq<Pet>, bobPetsOnce: seq<Pet>, rex: Pet)
    ensures alicePets == [] && bobPets == [rex]
    ensures bobPetsOnce == bobPets
  {
    var reg := new Registry();
    assert !IsWhitespace("Alice"[0]) && !IsWhitespace("Bob"[0]) && !IsWhitespace("Rex"[0]);
    var ra := Owner.Create("Alice");
    var rb := Owner.Create("Bob");
    var alice, bob := ra.value, rb.value;
    var rp := Pet.Create(reg, "Rex", "dog", alice);
    rex := rp.value;
    rex.SetOwner(bob);
    PetsOfOne(reg, rex, bob);
    bobPetsOnce := bob.Pets(reg);
    rex.SetOwner(bob);
    PetsOfOne(reg, rex, alice);
    PetsOfOne(reg, rex, bob);
    alicePets := alice.Pets(reg);
    bobPets := bob.Pets(reg);
  }
}
