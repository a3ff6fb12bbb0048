# Owner/pet domain model in Dafny

This project models `lib/owner_pet.py`, a small in-memory domain of pet owners
and their pets.

- An `Owner` has a name that must not be blank.
- A `Pet` has a name that must not be blank, a type taken from a closed list
  of six, and an optional owner.
- Every pet that is constructed successfully is appended to one process-wide
  list, `Pet.all`.
- `Owner.pets()` scans that list for the pets whose `owner` is that very
  owner object (Python's `is`).
- `Owner.add_pet` and `Pet.set_owner` reassign a pet's owner.
- `Owner.get_sorted_pets()` returns the owner's pets sorted by name.

Files:

- `pystr.dfy` (module `PyStr`): the parts of Python's `str` the core relies
  on.
  - `str.strip()` with no argument, over the exact set of code points for
    which `str.isspace()` holds.
  - `<` on strings, which is lexicographic by code point with a proper prefix
    smaller. It is proved to be a strict total order.
- `seqs.dfy` (module `Seqs`): `Distinct`, `IsSubsequence`, and `Without` (a
  list with one element removed). These are used to state what the owner queries return.
- `owner_pet.dfy` (module `OwnerPet`): the classes `Registry`, `Owner` and
  `Pet`, the queries, the stable sort, and the lemmas about them.
- `scenarios.dfy` (module `Scenarios`): short concrete scenarios starting
  from an empty registry, with their outcomes proved.

Modelling decisions:

- **Objects.** `Owner` and `Pet` are classes, so ownership is reference
  identity, as in the source.
- **The pet list.** The class attribute `Pet.all` becomes an explicit
  `Registry` object. Its `all: seq<Pet>` field is extended by pet
  construction and read by `Owner.Pets`. `Registry.Valid()` says each pet is
  registered once and only valid pets are registered. Because of the first
  part, `pets()` never lists a pet twice.
- **Failing construction.** The source's constructors raise on bad input, and
  a Dafny constructor cannot fail. So the constructors hold only the part
  after validation, and the static methods `Owner.Create` and `Pet.Create` do
  what `Owner(...)` and `Pet(...)` do. They return `Result<T>`, which is
  either `Ok(value)` or `Err(error)`. The error is `BlankName` or
  `UnknownPetType`, naming which check fired. The checks run in the source's
  order: name first, then type.
- **Sorting.** `sorted(..., key=lambda p: p.name)` becomes `SortByName`, a
  stable insertion sort.
  - It is proved sorted, a permutation of its input, and stable: for every
    name, the pets with that name keep their relative order.
  - `StableSortUnique` proves that only one list has all three properties.
    So `SortByName` returns exactly what any stable sort by name returns,
    Python's Timsort included.
- **`pets()`.** The comprehension is modelled by `Select`. `Select` works on a
  snapshot of the owner fields (`OwnerMap`), which lets the effect of
  `set_owner` be stated as a lemma relating the state before to the state
  after (`SetOwnerEffect`).
- **Names are constants.** `name` and `pet_type` are `const` fields because
  the source never assigns them after construction. `owner` is a mutable
  field.

## Model

| member | source | states |
|---|---|---|
| PyStr.IsWhitespace | lib/owner_pet.py:9 | the characters `str.strip()` removes: exactly the code points for which Python's `str.isspace()` holds |
| PyStr.WhitespaceSamples | lib/owner_pet.py:37 | tab, newline, vertical tab, form feed, no-break space and ideographic space are whitespace; the zero-width space, U+180E, NUL and the letter `a` are not |
| PyStr.Strip | lib/owner_pet.py:9 | stripping gives the empty string exactly when every character is whitespace; otherwise the result starts and ends with a non-whitespace character and is the infix of the input between an all-whitespace prefix and an all-whitespace suffix |
| PyStr.TrimStart | lib/owner_pet.py:37 | the left half of `strip()`: a suffix of the input, everything dropped is whitespace, and the result does not start with whitespace |
| PyStr.TrimEnd | lib/owner_pet.py:37 | the right half of `strip()`: a prefix of the input, everything dropped is whitespace, and the result does not end with whitespace |
| PyStr.Less | lib/owner_pet.py:25 | Python's `<` on `str`, which `sorted` uses to compare the names |
| PyStr.LessIsLexicographic | lib/owner_pet.py:25 | `a < b` holds exactly when `a` is a proper prefix of `b`, or `a` has the smaller code point at the first position where the two differ |
| PyStr.LessIrreflexive | lib/owner_pet.py:25 | the string `<` that `sorted` compares names with is irreflexive |
| PyStr.LessAsymmetric | lib/owner_pet.py:25 | if `a < b` then not `b < a` |
| PyStr.LessTransitive | lib/owner_pet.py:25 | `<` on names is transitive |
| PyStr.LessTrichotomy | lib/owner_pet.py:25 | any two names are equal or ordered one way by `<`, so sorting by name is total |
| PyStr.NotLessTransitive | lib/owner_pet.py:25 | "not greater" (Python's `<=` on names) is transitive |
| OwnerPet.PetTypes | lib/owner_pet.py:32 | the six allowed pet types, in the source's order |
| OwnerPet.IsPetType | lib/owner_pet.py:44 | the type check is membership in the six allowed types |
| OwnerPet.PetTypeExact | lib/owner_pet.py:32-45 | the six types are distinct; the check is exact: it neither folds case nor strips whitespace, and it rejects the empty string and unlisted types |
| OwnerPet.ValidName | lib/owner_pet.py:9 | the name check `not name.strip()` fails exactly when every character of the name is whitespace |
| OwnerPet.Registry.constructor | lib/owner_pet.py:33 | the pet list starts empty and valid |
| OwnerPet.Owner.constructor | lib/owner_pet.py:11 | a valid owner stores its name unchanged, not stripped |
| OwnerPet.Owner.Create | lib/owner_pet.py:8-11 | `Owner(name)` fails exactly when the name is blank, with a blank-name error; otherwise it gives a new valid owner with that name untrimmed |
| OwnerPet.Owner.Pets | lib/owner_pet.py:14-15 | `pets()` contains a pet exactly when that pet is registered and owned by this very owner; each owned pet occurs as often as in the registry; it is a subsequence of the registry, so registry order is kept; over a valid registry no pet is listed twice |
| OwnerPet.Owner.AddPet | lib/owner_pet.py:18-21 | after `add_pet(pet)` the pet's owner is this owner, and only that pet is modified; adding a pet this owner already has changes nothing |
| OwnerPet.Owner.GetSortedPets | lib/owner_pet.py:24-25 | `get_sorted_pets()` is sorted by name and is a permutation of `pets()`; pets of equal name keep their order from `pets()` |
| OwnerPet.Pet.constructor | lib/owner_pet.py:39-56 | a valid pet stores name, type and owner and is appended to the end of the registry, which stays valid |
| OwnerPet.Pet.Create | lib/owner_pet.py:35-56 | `Pet(...)` fails exactly when the name is blank or the type is not one of the six; a blank name reports a name error even if the type is also bad; on failure the registry is unchanged; on success a new valid pet with the given fields is appended to the registry |
| OwnerPet.Pet.SetOwner | lib/owner_pet.py:59-62 | `set_owner(o)` makes `o` the owner and changes only this pet; setting the same owner again changes nothing |
| OwnerPet.Select | lib/owner_pet.py:15 | the comprehension keeps exactly the entries whose owner is `o`, each with its multiplicity, in order |
| OwnerPet.SelectDistinct | lib/owner_pet.py:15 | `pets()` lists no pet twice when the list it filters has no pet twice, as the registry never does |
| OwnerPet.SortByName | lib/owner_pet.py:25 | the stable sort gives a sorted permutation of its input that keeps the order of pets of equal name |
| OwnerPet.InsertByName | lib/owner_pet.py:25 | inserting into a sorted list keeps it sorted, adds exactly the new pet, and places it before the pets of equal name already there |
| OwnerPet.StableSortUnique | lib/owner_pet.py:25 | two lists that are both sorted by name and agree, for every name, on the order of the pets with that name are equal; so the model's sort returns what Python's `sorted` returns |
| OwnerPet.SortTwo | lib/owner_pet.py:25 | two pets already in name order are returned unchanged |
| OwnerPet.SelectFrame | lib/owner_pet.py:15 | changing one pet's owner leaves every owner's list unchanged once that pet is removed from it |
| OwnerPet.SetOwnerEffect | lib/owner_pet.py:59-62 | after the owner of one registered pet changes, that pet is in an owner's `pets()` exactly when it is that owner's; no other pet enters, leaves or moves in anyone's `pets()` |
| OwnerPet.DistinctOwnersDisjoint | lib/owner_pet.py:15 | two different owner objects never share a pet, even if their names are equal |
| OwnerPet.PetsAllOwned | lib/owner_pet.py:15 | an owner who owns every registered pet gets the whole registry, in order |
| OwnerPet.PetsOfOne | lib/owner_pet.py:15 | over a one-pet registry, `pets()` is that pet if owned and empty otherwise |
| OwnerPet.PetsOfTwo | lib/owner_pet.py:15 | over a two-pet registry, `pets()` lists the owned ones in registry order |
| OwnerPet.UnownedInNoPets | lib/owner_pet.py:49-53 | a pet constructed without an owner is in no owner's `pets()` |
| Scenarios.AliceAndRex | lib/owner_pet.py:35-56 | a pet constructed with an owner is immediately in that owner's `pets()`, and is the only one there |
| Scenarios.FluffyAndMilo | lib/owner_pet.py:56 | two successful constructions register both pets, in construction order |
| Scenarios.BobBeforeAdd | lib/owner_pet.py:15 | an unowned pet is not among an owner's pets before `add_pet` |
| Scenarios.BobSortedPets | lib/owner_pet.py:18-25 | after `add_pet`, the owner's sorted pets are both pets in name order |
| Scenarios.FishRejected | lib/owner_pet.py:44-45 | an unknown type is rejected with a type error and nothing is registered |
| Scenarios.Reassign | lib/owner_pet.py:59-62 | a pet moved to a new owner leaves the old owner's `pets()` and joins the new one's; setting the same owner a second time leaves the new owner's `pets()` as it was |

## Left out

- `__repr__` of both classes (lib/owner_pet.py:27-28 and 64-66): string formatting only, with no effect on state.
- Exception messages: the text of each raised `Exception` is not modelled, only which check failed (`BlankName`, `UnknownPetType`).
- The `isinstance` checks (lib/owner_pet.py:9, 19, 37, 42, 51 and 60): Dafny's static types already rule out a non-string name or type, a non-`Pet` argument to `add_pet`, and a non-`Owner` owner. None of these error paths can arise in the model.
- Half-built objects: when `Pet(...)` raises after assigning `self.name`, the object is unreachable and the list is not extended. The model represents this only as an `Err` result and an unchanged registry.
- Global class state: `Pet.all` and `Pet.PET_TYPES` are Python class attributes. They are modelled as an explicit `Registry` argument and a constant. Code that mutates `Pet.all` from outside the core is not part of this model; the source has no operation that removes entries.
- Timsort: the algorithm behind `sorted` is not modelled. A stable insertion sort stands in for it, and `StableSortUnique` shows that the two results agree.
- Python `str` internals: only `strip()` without an argument and `<` are modelled. A Dafny `char` is a Unicode scalar value, so a Python string holding a lone surrogate (U+D800 to U+DFFF) cannot be represented.
- Owner.AddPet: states only the effect on the pet. What this means for every owner's `pets()` is stated separately by `SetOwnerEffect`.
