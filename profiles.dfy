/**
 * The in-memory rules of `ProfilesManager` in tvfamily/core.py: profiles by name, which of
 * them have a picture file, creation, deletion, picture changes and the listing sorted by
 * name. The file system is the set of names with a picture; decoding a picture is a
 * parameter; `profiles.json` is the decoded list it holds.
 */
module Profiles {
  import opened Wrappers
  import opened Strings

  /** A profile's settings: the defaults, or the JSON text read back for it. */
  datatype Settings = DefaultSettings | StoredSettings(json: string)

  datatype UserProfile = UserProfile(name: string, settings: Settings)

  type Picture = seq<bv8>

  /** Whether the imaging library can open the bytes (otherwise it raises `IOError`). */
  type Decoder = Picture -> bool

  /** The manager's state: the profiles by name and the names with a picture file. */
  datatype Store = Store(profiles: map<string, UserProfile>, pictures: set<string>)

  /** Every profile is kept under its own name. */
  ghost predicate Keyed(s: Store)
  {
    forall n :: n in s.profiles ==> s.profiles[n].name == n
  }

  /** What an operation returned or raised, and the state after it. */
  datatype Outcome = Outcome(result: Result<()>, store: Store)

  /** The dictionary `_load` builds from the stored list: a later profile with the same name wins. */
  function ProfilesOf(stored: seq<UserProfile>): (m: map<string, UserProfile>)
    ensures forall n :: n in m ==> m[n].name == n
    ensures forall i :: 0 <= i < |stored| ==> stored[i].name in m
    ensures forall n :: n in m ==> exists i :: 0 <= i < |stored| && stored[i] == m[n]
    decreases |stored|
  {
    if stored == [] then map[]
    else
      var last := stored[|stored| - 1];
      var m := ProfilesOf(stored[..|stored| - 1])[last.name := last];
      assert forall i :: 0 <= i < |stored| - 1 ==> stored[i] == stored[..|stored| - 1][i];
      m
  }

  /** `__init__`: the stored profiles, or none when the file cannot be read. */
  function Load(stored: Option<seq<UserProfile>>, pictures: set<string>): (s: Store)
    ensures Keyed(s)
  {
    Store(if stored.None? then map[] else ProfilesOf(stored.value), pictures)
  }

  function NotFound(name: string): Exception
  {
    KeyError("profile '" + name + "' not found")
  }

  /** `__getitem__`. */
  function Get(s: Store, name: string): (r: Result<UserProfile>)
    ensures r.Ok? <==> name in s.profiles
    ensures r.Ok? ==> r.value == s.profiles[name]
    ensures r.Err? ==> r.error == NotFound(name)
  {
    if name in s.profiles then Ok(s.profiles[name]) else Err(NotFound(name))
  }

  /** `get_profile_picture`: whether a picture file can be opened for a known profile. */
  function HasPicture(s: Store, name: string): (r: Result<bool>)
    ensures r.Ok? <==> name in s.profiles
    ensures r.Ok? ==> (r.value <==> name in s.pictures)
  {
    if name !in s.profiles then Err(NotFound(name)) else Ok(name in s.pictures)
  }

  /** `_save_profile_picture`: an undecodable picture raises and nothing is written. */
  function SavePicture(s: Store, name: string, picture: Picture, decodes: Decoder): Outcome
  {
    if !decodes(picture) then Outcome(Err(IOError), s)
    else Outcome(Ok(()), s.(pictures := s.pictures + {name}))
  }

  /** `set_profile_picture`: an empty picture removes the file, if any; another one replaces it. */
  function SetPicture(s: Store, name: string, picture: Picture, decodes: Decoder): Outcome
  {
    if name !in s.profiles then Outcome(Err(NotFound(name)), s)
    else if picture == [] then Outcome(Ok(()), s.(pictures := s.pictures - {name}))
    else SavePicture(s, name, picture, decodes)
  }

  /** `create_profile`: a taken name raises `ValueError`; the picture is saved before the profile is added. */
  function Create(s: Store, name: string, picture: Picture, decodes: Decoder): Outcome
  {
    if name in s.profiles then Outcome(Err(ValueError("a profile with this name already exists")), s)
    else
      var saved := if picture != [] then SavePicture(s, name, picture, decodes) else Outcome(Ok(()), s);
      if saved.result.Err? then saved
      else Outcome(Ok(()), saved.store.(profiles := saved.store.profiles[name := UserProfile(name, DefaultSettings)]))
  }

  /** `delete_profile`: the picture file goes first, then the profile, whose absence raises `KeyError`. */
  function Delete(s: Store, name: string): Outcome
  {
    var s' := s.(pictures := s.pictures - {name});
    if name !in s.profiles then Outcome(Err(NotFound(name)), s')
    else Outcome(Ok(()), s'.(profiles := s'.profiles - {name}))
  }

  function Names(ps: seq<UserProfile>): (r: seq<string>)
    ensures |r| == |ps| && forall i :: 0 <= i < |ps| ==> r[i] == ps[i].name
  {
    seq(|ps|, i requires 0 <= i < |ps| => ps[i].name)
  }

  /** `get_profiles`: every profile once, sorted by name. */
  ghost predicate ListsProfiles(r: seq<UserProfile>, s: Store)
  {
    && StrictlySorted(Names(r))
    && (forall i :: 0 <= i < |r| ==> r[i].name in s.profiles && s.profiles[r[i].name] == r[i])
    && (forall n :: n in s.profiles ==> n in Names(r))
  }

  /** The profiles stored under `names`, in that order. */
  function ProfilesAt(m: map<string, UserProfile>, names: seq<string>): (r: seq<UserProfile>)
    requires forall i :: 0 <= i < |names| ==> names[i] in m
    ensures |r| == |names| && forall i :: 0 <= i < |r| ==> r[i] == m[names[i]]
  {
    seq(|names|, i requires 0 <= i < |names| => m[names[i]])
  }

  /** The profiles under the sorted names, each name once, are the listing. */
  lemma {:induction false} SortedListing(s: Store, names: seq<string>)
    requires Keyed(s) && Distinct(names)
    requires forall n :: n in names <==> n in s.profiles
    ensures forall i :: 0 <= i < |SortStrings(names)| ==> SortStrings(names)[i] in s.profiles
    ensures ListsProfiles(ProfilesAt(s.profiles, SortStrings(names)), s)
  {
    var sorted := SortStrings(names);
    SortedNamesAreKeys(s, names, sorted);
    var r := ProfilesAt(s.profiles, sorted);
    assert Names(r) == sorted;
    assert forall n :: n in s.profiles ==> n in Names(r);
  }

  /** Sorting the names keeps them strictly ordered and the same set. */
  lemma {:induction false} SortedNamesAreKeys(s: Store, names: seq<string>, sorted: seq<string>)
    requires Distinct(names) && sorted == SortStrings(names)
    requires forall n :: n in names <==> n in s.profiles
    ensures StrictlySorted(sorted)
    ensures forall n :: n in sorted <==> n in s.profiles
  {
    SortStringsSorted(names);
    forall n ensures n in sorted <==> n in s.profiles {
      assert n in sorted <==> n in multiset(names);
    }
  }

  /** The listing does not depend on the dictionary's order: there is only one sorted listing. */
  lemma {:induction false} ListingUnique(r1: seq<UserProfile>, r2: seq<UserProfile>, s: Store)
    requires ListsProfiles(r1, s) && ListsProfiles(r2, s)
    ensures r1 == r2
  {
    var n1, n2 := Names(r1), Names(r2);
    assert multiset(n1) == multiset(n2) by {
      assert forall i, j :: 0 <= i < j < |n1| ==> n1[i] != n1[j] by {
        forall i, j | 0 <= i < j < |n1| ensures n1[i] != n1[j] {
          LexLessIrreflexiveNe(n1[i], n1[j]);
        }
      }
      assert forall i, j :: 0 <= i < j < |n2| ==> n2[i] != n2[j] by {
        forall i, j | 0 <= i < j < |n2| ensures n2[i] != n2[j] {
          LexLessIrreflexiveNe(n2[i], n2[j]);
        }
      }
      assert forall x :: x in n1 <==> x in n2;
      DistinctMultiset(n1, n2);
    }
    StrictlySortedUnique(n1, n2);
    forall i | 0 <= i < |r1| ensures r1[i] == r2[i] {
      assert n1[i] == n2[i];
    }
  }

  lemma {:induction false} LexLessIrreflexiveNe(a: string, b: string)
    requires LexLess(a, b)
    ensures a != b
  {
    if a == b {
      LexLessIrreflexive(a);
    }
  }

  /** Two sequences without repetitions and with the same elements have the same multiset. */
  lemma {:induction false} DistinctMultiset(a: seq<string>, b: seq<string>)
    requires forall i, j :: 0 <= i < j < |a| ==> a[i] != a[j]
    requires forall i, j :: 0 <= i < j < |b| ==> b[i] != b[j]
    requires forall x :: x in a <==> x in b
    ensures multiset(a) == multiset(b)
  {
    forall x ensures multiset(a)[x] == multiset(b)[x] {
      DistinctCount(a, x);
      DistinctCount(b, x);
    }
  }

  lemma {:induction false} DistinctCount(a: seq<string>, x: string)
    requires forall i, j :: 0 <= i < j < |a| ==> a[i] != a[j]
    ensures multiset(a)[x] == if x in a then 1 else 0
  {
    if a != [] {
      assert a == [a[0]] + a[1..];
      assert multiset(a) == multiset{a[0]} + multiset(a[1..]);
      DistinctCount(a[1..], x);
      if x == a[0] {
        assert x !in a[1..];
      }
    }
  }

  /** A new name becomes a profile with the default settings, whatever else is there. */
  lemma {:induction false} CreateThenGet(s: Store, name: string, picture: Picture, decodes: Decoder)
    requires name !in s.profiles && (picture == [] || decodes(picture))
    ensures Create(s, name, picture, decodes).result.Ok?
    ensures Get(Create(s, name, picture, decodes).store, name) == Ok(UserProfile(name, DefaultSettings))
    ensures forall n :: n != name ==> Get(Create(s, name, picture, decodes).store, n) == Get(s, n)
    ensures (name in Create(s, name, picture, decodes).store.pictures) <==> picture != [] || name in s.pictures
  {
  }

  /** Creating a taken name raises `ValueError` and changes nothing, the picture included. */
  lemma {:induction false} CreateDuplicateRaises(s: Store, name: string, picture: Picture, decodes: Decoder)
    requires name in s.profiles
    ensures Create(s, name, picture, decodes) == Outcome(Err(ValueError("a profile with this name already exists")), s)
  {
  }

  /** A picture that cannot be decoded raises `IOError` and no profile is created. */
  lemma {:induction false} CreateBadPictureRaises(s: Store, name: string, picture: Picture, decodes: Decoder)
    requires name !in s.profiles && picture != [] && !decodes(picture)
    ensures Create(s, name, picture, decodes) == Outcome(Err(IOError), s)
  {
  }

  /**
   * Deleting an unknown profile raises `KeyError` and keeps the profiles, but a picture file
   * left under that name is removed all the same.
   */
  lemma {:induction false} DeleteUnknownRaises(s: Store, name: string)
    requires name !in s.profiles
    ensures Delete(s, name).result == Err(NotFound(name))
    ensures Delete(s, name).store.profiles == s.profiles
    ensures name !in Delete(s, name).store.pictures && Delete(s, name).store.pictures == s.pictures - {name}
  {
  }

  /** Deleting a created profile with no picture gives back the profiles from before. */
  lemma {:induction false} CreateThenDelete(s: Store, name: string, decodes: Decoder)
    requires name !in s.profiles
    ensures Delete(Create(s, name, [], decodes).store, name) == Outcome(Ok(()), s.(pictures := s.pictures - {name}))
    ensures Get(Delete(Create(s, name, [], decodes).store, name).store, name).Err?
  {
    assert Create(s, name, [], decodes).store.profiles - {name} == s.profiles;
  }

  /**
   * Setting a picture for an unknown profile raises and changes nothing. Otherwise the
   * profiles stay as they are, and afterwards the profile has a picture exactly when the new
   * one is not empty and decodes; an undecodable picture raises and leaves the store as it was.
   */
  lemma {:induction false} SetPictureThenHas(s: Store, name: string, picture: Picture, decodes: Decoder)
    ensures var o := SetPicture(s, name, picture, decodes);
            && o.store.profiles == s.profiles
            && (o.result.Ok? <==> name in s.profiles && (picture == [] || decodes(picture)))
            && (o.result.Err? ==> o.store == s)
            && (name in s.profiles ==> HasPicture(o.store, name) == Ok(if o.result.Ok? then picture != [] else name in s.pictures))
            && (forall other :: other != name ==> HasPicture(o.store, other) == HasPicture(s, other))
  {
  }

  /** Every operation keeps each profile under its own name. */
  lemma {:induction false} OperationsKeepKeyed(s: Store, name: string, picture: Picture, decodes: Decoder)
    requires Keyed(s)
    ensures Keyed(Create(s, name, picture, decodes).store)
    ensures Keyed(Delete(s, name).store)
    ensures Keyed(SetPicture(s, name, picture, decodes).store)
  {
  }

  /** The manager object, updating its dictionary and the picture files. */
  class ProfilesManager {
    var profiles: map<string, UserProfile>
    var pictures: set<string>

    function State(): Store
      reads this
    {
      Store(profiles, pictures)
    }

    ghost predicate Valid()
      reads this
    {
      Keyed(State())
    }

    constructor(stored: Option<seq<UserProfile>>, pictures: set<string>)
      ensures Valid() && State() == Load(stored, pictures)
    {
      var s := Load(stored, pictures);
      this.profiles := s.profiles;
      this.pictures := pictures;
    }

    /** `get_profiles`: the profiles of the dictionary in any order, then sorted by name. */
    method GetProfiles() returns (r: seq<UserProfile>)
      requires Valid()
      ensures ListsProfiles(r, State())
    {
      var names := KeysInSomeOrder(profiles.Keys);
      SortedListing(State(), names);
      r := ProfilesAt(profiles, SortStrings(names));
    }

    /** The iteration over the dictionary's keys, in an order the model does not fix. */
    static method KeysInSomeOrder(keys: set<string>) returns (names: seq<string>)
      ensures Distinct(names)
      ensures forall n :: n in names <==> n in keys
    {
      names := [];
      var rest := keys;
      while rest != {}
        invariant rest <= keys
        invariant forall i :: 0 <= i < |names| ==> names[i] in keys && names[i] !in rest
        invariant forall n :: n in keys ==> n in rest || n in names
        invariant Distinct(names)
        decreases |rest|
      {
        var n :| n in rest;
        names := names + [n];
        rest := rest - {n};
      }
    }

    method SetProfilePicture(name: string, picture: Picture, decodes: Decoder) returns (r: Result<()>)
      requires Valid()
      modifies this
      ensures Valid() && Outcome(r, State()) == SetPicture(old(State()), name, picture, decodes)
    {
      if name !in profiles {
        return Err(NotFound(name));
      }
      if picture == [] {
        pictures := pictures - {name};
        return Ok(());
      }
      if !decodes(picture) {
        return Err(IOError);
      }
      pictures := pictures + {name};
      r := Ok(());
    }

    method CreateProfile(name: string, picture: Picture, decodes: Decoder) returns (r: Result<()>)
      requires Valid()
      modifies this
      ensures Valid() && Outcome(r, State()) == Create(old(State()), name, picture, decodes)
    {
      if name in profiles {
        return Err(ValueError("a profile with this name already exists"));
      }
      if picture != [] {
        if !decodes(picture) {
          return Err(IOError);
        }
        pictures := pictures + {name};
      }
      profiles := profiles[name := UserProfile(name, DefaultSettings)];
      r := Ok(());
    }

    method DeleteProfile(name: string) returns (r: Result<()>)
      requires Valid()
      modifies this
      ensures Valid() && Outcome(r, State()) == Delete(old(State()), name)
    {
      pictures := pictures - {name};
      if name !in profiles {
        return Err(NotFound(name));
      }
      profiles := profiles - {name};
      r := Ok(());
    }
  }
}
