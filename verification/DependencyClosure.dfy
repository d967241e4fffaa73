/**
 The closure of the direct requirements over the installed packages' own requirements, found
 with a work list. Packages are identified by their canonical name; the spelling to display is
 the first one met.
 */
module DependencyClosure {

  /** A package name, compared as a whole. */
  datatype Name = Name(text: string)

  /** One declared requirement: unreadable, or a name and whether its marker holds here. */
  datatype Requirement = Unreadable | Needs(name: Name, applies: bool)

  /**
   The installed distributions, found by canonical name whatever the spelling asked for, and
   what makes a name canonical.
   */
  datatype Environment = Environment(canonical: Name -> Name, installed: map<Name, seq<Requirement>>)

  /** What the metadata declares; a package that is not installed declares nothing. */
  function Metadata(env: Environment, key: Name): seq<Requirement> {
    if key in env.installed then env.installed[key] else []
  }

  predicate Kept(r: Requirement) {
    r.Needs? && r.applies
  }

  function Keys(env: Environment, requirements: seq<Requirement>): set<Name> {
    set i | 0 <= i < |requirements| && Kept(requirements[i]) :: env.canonical(requirements[i].name)
  }

  /** The canonical names a package needs directly. */
  function Needed(env: Environment, key: Name): set<Name> {
    Keys(env, Metadata(env, key))
  }

  /** The keys of the direct requirements; their markers are not looked at. */
  function Roots(env: Environment, direct: seq<Requirement>): set<Name> {
    set i | 0 <= i < |direct| && direct[i].Needs? :: env.canonical(direct[i].name)
  }

  predicate Link(env: Environment, chain: seq<Name>, i: nat)
    requires 0 < i < |chain|
  {
    chain[i] in Needed(env, chain[i - 1])
  }

  /** A chain of requirements from a root. */
  ghost predicate IsChain(env: Environment, roots: set<Name>, chain: seq<Name>) {
    && chain != [] && chain[0] in roots
    && forall i :: 0 < i < |chain| ==> Link(env, chain, i)
  }

  ghost predicate Reachable(env: Environment, roots: set<Name>, key: Name) {
    exists chain :: IsChain(env, roots, chain) && chain[|chain| - 1] == key
  }

  ghost predicate ClosedUnder(env: Environment, keys: set<Name>) {
    forall key :: key in keys ==> Needed(env, key) <= keys
  }

  lemma RootIsReachable(env: Environment, roots: set<Name>, key: Name)
    requires key in roots
    ensures Reachable(env, roots, key)
  {
    assert IsChain(env, roots, [key]);
  }

  lemma OneMore(env: Environment, roots: set<Name>, key: Name, next: Name)
    requires Reachable(env, roots, key) && next in Needed(env, key)
    ensures Reachable(env, roots, next)
  {
    var chain :| IsChain(env, roots, chain) && chain[|chain| - 1] == key;
    var longer := chain + [next];
    forall i | 0 < i < |longer| ensures Link(env, longer, i) {
      assert i < |chain| ==> Link(env, chain, i);
    }
    assert IsChain(env, roots, longer) && longer[|longer| - 1] == next;
  }

  /** Whatever contains the roots and is closed contains everything reachable. */
  lemma {:induction false} ChainStaysInside(env: Environment, roots: set<Name>, keys: set<Name>, chain: seq<Name>)
    requires roots <= keys && ClosedUnder(env, keys) && IsChain(env, roots, chain)
    ensures chain[|chain| - 1] in keys
    decreases |chain|
  {
    if |chain| > 1 {
      var front := chain[..|chain| - 1];
      forall i | 0 < i < |front| ensures Link(env, front, i) {
        assert Link(env, chain, i);
      }
      assert Link(env, chain, |chain| - 1);
      ChainStaysInside(env, roots, keys, front);
    }
  }

  lemma ReachableIsLeast(env: Environment, roots: set<Name>, keys: set<Name>)
    requires roots <= keys && ClosedUnder(env, keys)
    ensures forall key :: Reachable(env, roots, key) ==> key in keys
  {
    forall key | Reachable(env, roots, key) ensures key in keys {
      var chain :| IsChain(env, roots, chain) && chain[|chain| - 1] == key;
      ChainStaysInside(env, roots, keys, chain);
    }
  }

  // ------------------------------------------------------------------ the names kept

  type Names = map<Name, Name>

  function SetDefault(names: Names, key: Name, name: Name): Names {
    if key in names then names else names[key := name]
  }

  /** Exactly `keys` were added, and nothing recorded before was lost or respelt. */
  predicate Extends(names: Names, before: Names, keys: set<Name>) {
    names.Keys == before.Keys + keys && forall key :: key in before ==> names[key] == before[key]
  }

  lemma ExtendsMore(env: Environment, names: Names, before: Names, declared: seq<Requirement>, i: nat)
    requires i < |declared| && Extends(names, before, Keys(env, declared[..i]))
    ensures Kept(declared[i]) ==>
              var name := declared[i].name;
              Extends(SetDefault(names, env.canonical(name), name), before, Keys(env, declared[..i + 1]))
    ensures !Kept(declared[i]) ==> Extends(names, before, Keys(env, declared[..i + 1]))
  {
    KeysGrow(env, declared, i);
  }

  /** A spelling comes from a direct requirement or from the metadata of a reachable package. */
  ghost predicate SpeltSomewhere(env: Environment, direct: seq<Requirement>, name: Name) {
    || Needs(name, true) in direct || Needs(name, false) in direct
    || (exists key :: Reachable(env, Roots(env, direct), key) && SpeltIn(env, key, name))
  }

  predicate SpeltIn(env: Environment, key: Name, name: Name) {
    Needs(name, true) in Metadata(env, key)
  }

  predicate OwnKeys(env: Environment, names: Names) {
    forall key :: key in names ==> env.canonical(names[key]) == key
  }

  ghost predicate AllSpelt(env: Environment, direct: seq<Requirement>, names: Names) {
    forall key :: key in names ==> SpeltSomewhere(env, direct, names[key])
  }

  /** Each package found is displayed in a spelling of its own that was met on the way. */
  ghost predicate Faithful(env: Environment, direct: seq<Requirement>, names: Names) {
    OwnKeys(env, names) && AllSpelt(env, direct, names)
  }

  /** The first of the direct requirements to name its package. */
  predicate First(env: Environment, direct: seq<Requirement>, i: nat)
    requires i < |direct|
  {
    && direct[i].Needs?
    && forall j :: 0 <= j < i && direct[j].Needs? ==> env.canonical(direct[j].name) != env.canonical(direct[i].name)
  }

  /** A package required directly is displayed as its first direct requirement spells it. */
  predicate FirstSpelling(env: Environment, direct: seq<Requirement>, names: Names) {
    forall i :: 0 <= i < |direct| && First(env, direct, i) ==>
      var key := env.canonical(direct[i].name); key in names && names[key] == direct[i].name
  }

  lemma FirstSpellingAdd(env: Environment, direct: seq<Requirement>, names: Names, i: nat)
    requires i < |direct| && direct[i].Needs?
    requires FirstSpelling(env, direct[..i], names) && names.Keys == Roots(env, direct[..i])
    ensures FirstSpelling(env, direct[..i + 1], SetDefault(names, env.canonical(direct[i].name), direct[i].name))
  {
    var some := direct[..i + 1];
    forall k | 0 <= k < i && First(env, some, k) ensures First(env, direct[..i], k) {
      forall j | 0 <= j < k && direct[..i][j].Needs?
        ensures env.canonical(direct[..i][j].name) != env.canonical(direct[..i][k].name)
      {
        assert some[j] == direct[..i][j];
      }
    }
    if env.canonical(direct[i].name) in names {
      var j :| 0 <= j < i && direct[..i][j].Needs? && env.canonical(direct[..i][j].name) == env.canonical(direct[i].name);
      assert some[j] == direct[..i][j] && !First(env, some, i);
    }
  }

  lemma FirstSpellingStays(env: Environment, direct: seq<Requirement>, names: Names, before: Names, keys: set<Name>)
    requires FirstSpelling(env, direct, before) && Extends(names, before, keys)
    ensures FirstSpelling(env, direct, names)
  {
  }

  lemma FaithfulAdd(env: Environment, direct: seq<Requirement>, names: Names, name: Name)
    requires Faithful(env, direct, names) && SpeltSomewhere(env, direct, name)
    ensures Faithful(env, direct, SetDefault(names, env.canonical(name), name))
  {
  }

  /** All packages found so far were reached from the roots. */
  ghost predicate Found(env: Environment, roots: set<Name>, names: Names) {
    roots <= names.Keys && forall key :: key in names ==> Reachable(env, roots, key)
  }

  lemma FoundAdd(env: Environment, roots: set<Name>, names: Names, key: Name, next: Name, name: Name)
    requires Found(env, roots, names) && key in names && next in Needed(env, key)
    ensures Found(env, roots, SetDefault(names, next, name))
  {
    OneMore(env, roots, key, next);
  }

  /** Each package found is done or waits on the work list. */
  predicate Waiting(names: Names, pending: seq<Name>, processed: set<Name>) {
    && (forall key :: key in names ==> key in processed || key in pending)
    && (forall key :: key in pending ==> key in names)
    && processed <= names.Keys
  }

  lemma WaitingAdd(names: Names, pending: seq<Name>, processed: set<Name>, next: Name, name: Name)
    requires Waiting(names, pending, processed)
    ensures Waiting(SetDefault(names, next, name), if next in processed then pending else pending + [next], processed)
  {
  }

  lemma WaitingPop(names: Names, pending: seq<Name>, processed: set<Name>)
    requires Waiting(names, pending, processed) && pending != []
    ensures Waiting(names, pending[..|pending| - 1], processed + {pending[|pending| - 1]})
  {
    var last := |pending| - 1;
    forall key | key in names ensures key in processed + {pending[last]} || key in pending[..last] {
      if key in pending {
        var j :| 0 <= j < |pending| && pending[j] == key;
        assert j < last ==> pending[..last][j] == key;
      }
    }
  }

  /** Every key that could ever turn up. */
  ghost function Universe(env: Environment, roots: set<Name>): set<Name> {
    roots + set key, next | key in env.installed && next in Needed(env, key) :: next
  }

  lemma ReachableIsInUniverse(env: Environment, roots: set<Name>, key: Name)
    requires Reachable(env, roots, key)
    ensures key in Universe(env, roots)
  {
    var chain :| IsChain(env, roots, chain) && chain[|chain| - 1] == key;
    if |chain| > 1 {
      assert Link(env, chain, |chain| - 1);
    }
  }

  class FreezeConstraints {

    /** The direct names, in order of first mention; fails on an unreadable requirement. */
    static method DirectNames(env: Environment, direct: seq<Requirement>)
      returns (ok: bool, names: Names, pending: seq<Name>)
      ensures ok <==> Unreadable !in direct
      ensures ok ==> names.Keys == Roots(env, direct) && Faithful(env, direct, names)
      ensures ok ==> Waiting(names, pending, {}) && FirstSpelling(env, direct, names)
    {
      names, pending := map[], [];
      for i := 0 to |direct|
        invariant Unreadable !in direct[..i]
        invariant names.Keys == Roots(env, direct[..i])
        invariant Faithful(env, direct, names)
        invariant Waiting(names, pending, {}) && FirstSpelling(env, direct[..i], names)
      {
        if direct[i].Unreadable? {
          return false, names, pending;
        }
        var name := direct[i].name;
        var key := env.canonical(name);
        RootsGrow(env, direct, i);
        FirstSpellingAdd(env, direct, names, i);
        assert direct[i] == Needs(name, true) || direct[i] == Needs(name, false);
        FaithfulAdd(env, direct, names, name);
        if key !in names {
          pending := pending + [key];
        }
        names := SetDefault(names, key, name);
      }
      assert direct[..|direct|] == direct;
      ok := true;
    }

    /** Adds the packages that `key` needs, and puts those not processed yet on the work list. */
    static method AddNeeded(env: Environment, ghost direct: seq<Requirement>, key: Name, names0: Names,
                            pending0: seq<Name>, processed: set<Name>)
      returns (names: Names, pending: seq<Name>)
      requires key in names0 && Found(env, Roots(env, direct), names0) && Faithful(env, direct, names0)
      requires Waiting(names0, pending0, processed)
      ensures Found(env, Roots(env, direct), names) && Faithful(env, direct, names)
      ensures Waiting(names, pending, processed)
      ensures Extends(names, names0, Needed(env, key))
    {
      names, pending := names0, pending0;
      assert env.canonical(names[key]) == key;
      var declared := Metadata(env, env.canonical(names[key]));
      assert declared == Metadata(env, key) && declared[..0] == [];
      for i := 0 to |declared|
        invariant key in names && Grown(env, direct, names0, names, pending, processed, Keys(env, declared[..i]))
      {
        NextDeclared(env, direct, names0, names, pending, processed, key, i);
        if Kept(declared[i]) {
          var name := declared[i].name;
          var next := env.canonical(name);
          if next !in processed {
            pending := pending + [next];
          }
          names := SetDefault(names, next, name);
        }
      }
      assert declared[..|declared|] == declared;
    }

    /** The names of everything reachable from the direct requirements, and of nothing else. */
    static method RuntimeClosure(env: Environment, direct: seq<Requirement>) returns (ok: bool, names: Names)
      ensures ok <==> Unreadable !in direct
      ensures ok ==> forall key :: key in names <==> Reachable(env, Roots(env, direct), key)
      ensures ok ==> Faithful(env, direct, names) && FirstSpelling(env, direct, names)
    {
      var pending: seq<Name>;
      ok, names, pending := DirectNames(env, direct);
      if !ok {
        return;
      }
      ghost var roots := Roots(env, direct);
      var processed: set<Name> := {};
      RootsAreFound(env, roots, names);
      while pending != []
        invariant Found(env, roots, names) && Faithful(env, direct, names)
        invariant Waiting(names, pending, processed) && FirstSpelling(env, direct, names)
        invariant Expanded(env, names.Keys, processed)
        decreases |Universe(env, roots) - processed|, |pending|
      {
        var key := pending[|pending| - 1];
        WaitingPop(names, pending, processed);
        pending := pending[..|pending| - 1];
        if key !in processed {
          Shrinks(env, roots, processed, key);
          ghost var known, done := names, processed;
          processed := processed + {key};
          names, pending := AddNeeded(env, direct, key, names, pending, processed);
          ExpandedGrow(env, known.Keys, done, key);
          FirstSpellingStays(env, direct, names, known, Needed(env, key));
        } else {
          AlreadyIn(processed, key);
        }
      }
      AllExpanded(env, names, processed);
      ReachableIsLeast(env, roots, names.Keys);
    }
  }

  /** What the processed packages need has been found. */
  predicate Expanded(env: Environment, found: set<Name>, processed: set<Name>) {
    forall key :: key in processed ==> Needed(env, key) <= found
  }

  lemma AlreadyIn(s: set<Name>, x: Name)
    requires x in s
    ensures s + {x} == s
  {
  }

  lemma ExpandedGrow(env: Environment, found: set<Name>, processed: set<Name>, key: Name)
    requires Expanded(env, found, processed)
    ensures Expanded(env, found + Needed(env, key), processed + {key})
  {
  }

  lemma AllExpanded(env: Environment, names: Names, processed: set<Name>)
    requires Waiting(names, [], processed) && Expanded(env, names.Keys, processed)
    ensures ClosedUnder(env, names.Keys)
  {
  }

  lemma RootsAreFound(env: Environment, roots: set<Name>, names: Names)
    requires names.Keys == roots
    ensures Found(env, roots, names)
  {
    forall key | key in roots ensures Reachable(env, roots, key) {
      RootIsReachable(env, roots, key);
    }
  }

  /** The packages found so far, with those of `needed` and no others added. */
  ghost predicate Grown(env: Environment, direct: seq<Requirement>, names0: Names, names: Names,
                        pending: seq<Name>, processed: set<Name>, needed: set<Name>) {
    && Found(env, Roots(env, direct), names) && Faithful(env, direct, names)
    && Waiting(names, pending, processed) && Extends(names, names0, needed)
  }

  /** The next declared requirement is added, or is not needed here. */
  lemma NextDeclared(env: Environment, direct: seq<Requirement>, names0: Names, names: Names,
                     pending: seq<Name>, processed: set<Name>, key: Name, i: nat)
    requires key in names && i < |Metadata(env, key)|
    requires Grown(env, direct, names0, names, pending, processed, Keys(env, Metadata(env, key)[..i]))
    ensures var declared := Metadata(env, key);
            && (Kept(declared[i]) ==>
                  var next := env.canonical(declared[i].name);
                  Grown(env, direct, names0, SetDefault(names, next, declared[i].name),
                        if next in processed then pending else pending + [next], processed, Keys(env, declared[..i + 1])))
            && (!Kept(declared[i]) ==>
                  Grown(env, direct, names0, names, pending, processed, Keys(env, declared[..i + 1])))
  {
    var declared := Metadata(env, key);
    ExtendsMore(env, names, names0, declared, i);
    if Kept(declared[i]) {
      Supported(env, direct, names, key, i);
      WaitingAdd(names, pending, processed, env.canonical(declared[i].name), declared[i].name);
    }
  }

  /** A requirement kept from the metadata of a found package may be added. */
  lemma Supported(env: Environment, direct: seq<Requirement>, names: Names, key: Name, i: nat)
    requires Found(env, Roots(env, direct), names) && Faithful(env, direct, names)
    requires key in names && i < |Metadata(env, key)| && Kept(Metadata(env, key)[i])
    ensures var name := Metadata(env, key)[i].name; var more := SetDefault(names, env.canonical(name), name);
            Found(env, Roots(env, direct), more) && Faithful(env, direct, more)
  {
    var name := Metadata(env, key)[i].name;
    assert env.canonical(name) in Needed(env, key);
    FoundAdd(env, Roots(env, direct), names, key, env.canonical(name), name);
    assert Metadata(env, key)[i] == Needs(name, true);
    assert SpeltIn(env, key, name);
    FaithfulAdd(env, direct, names, name);
  }

  lemma Shrinks(env: Environment, roots: set<Name>, processed: set<Name>, key: Name)
    requires Reachable(env, roots, key) && key !in processed
    ensures |Universe(env, roots) - (processed + {key})| < |Universe(env, roots) - processed|
  {
    ReachableIsInUniverse(env, roots, key);
    var all := Universe(env, roots);
    assert all - (processed + {key}) == (all - processed) - {key};
  }

  lemma RootsGrow(env: Environment, direct: seq<Requirement>, i: nat)
    requires i < |direct| && direct[i].Needs?
    ensures Roots(env, direct[..i + 1]) == Roots(env, direct[..i]) + {env.canonical(direct[i].name)}
  {
    var name := env.canonical(direct[i].name);
    assert direct[..i + 1][i] == direct[i];
    forall k | k in Roots(env, direct[..i]) ensures k in Roots(env, direct[..i + 1]) {
      var j :| 0 <= j < i && direct[..i][j].Needs? && env.canonical(direct[..i][j].name) == k;
      assert direct[..i + 1][j] == direct[j];
    }
    forall k | k in Roots(env, direct[..i + 1]) ensures k in Roots(env, direct[..i]) + {name} {
      var j :| 0 <= j < i + 1 && direct[..i + 1][j].Needs? && env.canonical(direct[..i + 1][j].name) == k;
      assert j < i ==> direct[..i][j] == direct[j];
    }
  }

  lemma KeysGrow(env: Environment, declared: seq<Requirement>, i: nat)
    requires i < |declared|
    ensures Keys(env, declared[..i + 1])
         == Keys(env, declared[..i]) + if Kept(declared[i]) then {env.canonical(declared[i].name)} else {}
  {
    assert declared[..i + 1][i] == declared[i];
    forall k | k in Keys(env, declared[..i]) ensures k in Keys(env, declared[..i + 1]) {
      var j :| 0 <= j < i && Kept(declared[..i][j]) && env.canonical(declared[..i][j].name) == k;
      assert declared[..i + 1][j] == declared[j];
    }
    forall k | k in Keys(env, declared[..i + 1])
      ensures k in Keys(env, declared[..i]) || (Kept(declared[i]) && k == env.canonical(declared[i].name))
    {
      var j :| 0 <= j < i + 1 && Kept(declared[..i + 1][j]) && env.canonical(declared[..i + 1][j].name) == k;
      assert j < i ==> declared[..i][j] == declared[j];
    }
  }

  // ------------------------------------------------------------------ what the closure is

  /** Closing again finds nothing new: a closed set of roots is its own closure. */
  lemma ClosureIsClosed(env: Environment, roots: set<Name>, key: Name, next: Name)
    ensures Reachable(env, roots, key) && next in Needed(env, key) ==> Reachable(env, roots, next)
    ensures ClosedUnder(env, roots) ==> (Reachable(env, roots, key) <==> key in roots)
  {
    if Reachable(env, roots, key) && next in Needed(env, key) {
      OneMore(env, roots, key, next);
    }
    if key in roots {
      RootIsReachable(env, roots, key);
    }
    if ClosedUnder(env, roots) {
      ReachableIsLeast(env, roots, roots);
    }
  }

  /** More roots reach more. */
  lemma ReachableGrows(env: Environment, roots: set<Name>, more: set<Name>, key: Name)
    requires Reachable(env, roots, key) && roots <= more
    ensures Reachable(env, more, key)
  {
    var chain :| IsChain(env, roots, chain) && chain[|chain| - 1] == key;
    assert IsChain(env, more, chain);
  }

  /** What is reached from reachable packages is reachable. */
  lemma ReachableTransitive(env: Environment, roots: set<Name>, middle: set<Name>, key: Name)
    requires Reachable(env, middle, key) && forall m :: m in middle ==> Reachable(env, roots, m)
    ensures Reachable(env, roots, key)
  {
    var chain :| IsChain(env, middle, chain) && chain[|chain| - 1] == key;
    ChainReaches(env, roots, chain);
  }

  lemma {:induction false} ChainReaches(env: Environment, roots: set<Name>, chain: seq<Name>)
    requires chain != [] && Reachable(env, roots, chain[0])
    requires forall i :: 0 < i < |chain| ==> Link(env, chain, i)
    ensures Reachable(env, roots, chain[|chain| - 1])
    decreases |chain|
  {
    if |chain| > 1 {
      var front := chain[..|chain| - 1];
      forall i | 0 < i < |front| ensures Link(env, front, i) {
        assert Link(env, chain, i);
      }
      ChainReaches(env, roots, front);
      assert Link(env, chain, |chain| - 1);
      OneMore(env, roots, front[|front| - 1], chain[|chain| - 1]);
    }
  }

  lemma KeysAreRoots(env: Environment, direct: seq<Requirement>)
    ensures Keys(env, direct) <= Roots(env, direct)
  {
    forall key | key in Keys(env, direct) ensures key in Roots(env, direct) {
      var i :| 0 <= i < |direct| && Kept(direct[i]) && env.canonical(direct[i].name) == key;
      assert direct[i].Needs?;
    }
  }

  ghost predicate SameClosure(env: Environment, roots: set<Name>, keys: set<Name>) {
    forall key :: Reachable(env, roots, key) <==> Reachable(env, keys, key)
  }

  ghost predicate AllReached(env: Environment, roots: set<Name>, keys: set<Name>) {
    forall root :: root in roots ==> Reachable(env, keys, root)
  }

  lemma SameReachesAll(env: Environment, roots: set<Name>, keys: set<Name>)
    requires SameClosure(env, roots, keys)
    ensures AllReached(env, roots, keys)
  {
    forall root | root in roots ensures Reachable(env, keys, root) {
      RootIsReachable(env, roots, root);
    }
  }

  lemma SameFrom(env: Environment, roots: set<Name>, keys: set<Name>, key: Name)
    requires keys <= roots && AllReached(env, roots, keys)
    ensures Reachable(env, roots, key) <==> Reachable(env, keys, key)
  {
    if Reachable(env, roots, key) {
      ReachableTransitive(env, keys, roots, key);
    }
    if Reachable(env, keys, key) {
      ReachableGrows(env, keys, roots, key);
    }
  }

  lemma AllReachedIsSame(env: Environment, roots: set<Name>, keys: set<Name>)
    requires keys <= roots && AllReached(env, roots, keys)
    ensures SameClosure(env, roots, keys)
  {
    forall key ensures Reachable(env, roots, key) <==> Reachable(env, keys, key) {
      SameFrom(env, roots, keys, key);
    }
  }

  /** The closure contains only what is in effect on the platform. */
  ghost predicate OnlyInEffect(env: Environment, direct: seq<Requirement>) {
    SameClosure(env, Roots(env, direct), Keys(env, direct))
  }

  /**
   The markers of the direct requirements are not looked at, so the closure holds only what is in
   effect if and only if each of them is reachable from those whose markers hold.
   */
  lemma OnlyInEffectIff(env: Environment, direct: seq<Requirement>)
    ensures OnlyInEffect(env, direct) <==> AllReached(env, Roots(env, direct), Keys(env, direct))
  {
    KeysAreRoots(env, direct);
    if OnlyInEffect(env, direct) {
      SameReachesAll(env, Roots(env, direct), Keys(env, direct));
    }
    if AllReached(env, Roots(env, direct), Keys(env, direct)) {
      AllReachedIsSame(env, Roots(env, direct), Keys(env, direct));
    }
  }

  /** A direct requirement whose marker fails, that nothing in effect needs, is kept all the same. */
  lemma DirectMarkersAreIgnored(env: Environment, direct: seq<Requirement>, i: nat)
    requires i < |direct| && direct[i].Needs?
    ensures Reachable(env, Roots(env, direct), env.canonical(direct[i].name))
    ensures !Reachable(env, Keys(env, direct), env.canonical(direct[i].name)) ==> !OnlyInEffect(env, direct)
  {
    RootIsReachable(env, Roots(env, direct), env.canonical(direct[i].name));
  }

  /** The set has every direct package, and whatever an installed one in it needs on this platform. */
  ghost predicate Suffices(env: Environment, direct: seq<Requirement>, keys: set<Name>) {
    && (forall name, applies :: Needs(name, applies) in direct ==> env.canonical(name) in keys)
    && (forall key, name :: key in keys && key in env.installed && Needs(name, true) in env.installed[key] ==>
          env.canonical(name) in keys)
  }

  lemma SufficesMeans(env: Environment, direct: seq<Requirement>, keys: set<Name>)
    ensures Suffices(env, direct, keys) <==> Roots(env, direct) <= keys && ClosedUnder(env, keys)
  {
    if Suffices(env, direct, keys) {
      forall key, next | key in keys && next in Needed(env, key) ensures next in keys {
        var i :| 0 <= i < |Metadata(env, key)| && Kept(Metadata(env, key)[i])
                 && env.canonical(Metadata(env, key)[i].name) == next;
        assert Metadata(env, key)[i] == Needs(Metadata(env, key)[i].name, true);
      }
      forall root | root in Roots(env, direct) ensures root in keys {
        var i :| 0 <= i < |direct| && direct[i].Needs? && env.canonical(direct[i].name) == root;
        assert direct[i] == Needs(direct[i].name, direct[i].applies);
      }
    }
    if Roots(env, direct) <= keys && ClosedUnder(env, keys) {
      forall key, name | key in keys && key in env.installed && Needs(name, true) in env.installed[key]
        ensures env.canonical(name) in keys
      {
        assert env.canonical(name) in Needed(env, key);
      }
    }
  }

  /** The names found are the least set that has the direct packages and what its own members need. */
  lemma ClosureIsLeastThatSuffices(env: Environment, direct: seq<Requirement>, keys: set<Name>)
    requires forall key :: key in keys <==> Reachable(env, Roots(env, direct), key)
    ensures Suffices(env, direct, keys)
    ensures forall other :: Suffices(env, direct, other) ==> keys <= other
  {
    forall root | root in Roots(env, direct) ensures root in keys {
      RootIsReachable(env, Roots(env, direct), root);
    }
    forall key, next | key in keys && next in Needed(env, key) ensures next in keys {
      OneMore(env, Roots(env, direct), key, next);
    }
    SufficesMeans(env, direct, keys);
    forall other | Suffices(env, direct, other) ensures keys <= other {
      SufficesMeans(env, direct, other);
      ReachableIsLeast(env, Roots(env, direct), other);
    }
  }
}
