/**
 The runtime closure of the dependency audit (scripts/audit_dependencies.py): the packages that the main group needs,
 with the optional ones that activated extras select. However late an extra becomes active, the worklist ends with
 exactly the least closed set.
 */
module RuntimeClosure {
  import opened FiniteSets
  import opened Options

  type Name = string

  /** `normalize`: runs of `-`, `_` and `.` become one `-`, and letters lower-case. */
  function Normalize(name: string): Name {
    NormalizeFrom(name, false)
  }

  predicate IsSeparator(c: char) {
    c == '-' || c == '_' || c == '.'
  }

  function Lower(c: char): char {
    if 'A' <= c <= 'Z' then c - 'A' + 'a' else c
  }

  function NormalizeFrom(name: string, afterSeparator: bool): string {
    if name == "" then ""
    else if IsSeparator(name[0]) then (if afterSeparator then "" else "-") + NormalizeFrom(name[1..], true)
    else [Lower(name[0])] + NormalizeFrom(name[1..], false)
  }

  function NormalizeAll(names: set<string>): set<Name> {
    set n | n in names :: Normalize(n)
  }

  // ----- Manifest and lock ------------------------------------------------------------------------------------

  datatype Entry = Entry(optional: bool, extras: set<string>)

  /** A dependency specification; one that Poetry does not write is invalid. */
  datatype Spec = Invalid | Entries(entries: seq<Entry>)
  datatype Dependency = Dependency(name: string, spec: Spec)

  /** The requirements of an extra; None is one without a leading name. */
  datatype Package = Package(extras: map<string, seq<Option<string>>>, dependencies: seq<Dependency>)

  type Lock = map<Name, seq<Package>>
  type Seen = map<Name, set<Name>>

  datatype Need = Need(name: Name, extras: set<Name>)

  /** The optional packages that the active extras of a package select. */
  function Selected(p: Package, active: set<Name>): set<Name> {
    set e, i | e in p.extras && Normalize(e) in active && 0 <= i < |p.extras[e]| && p.extras[e][i].Some? ::
      Normalize(p.extras[e][i].value)
  }

  predicate IsWanted(entry: Entry, name: string, selected: set<Name>) {
    !entry.optional || Normalize(name) in selected
  }

  function NeedOf(name: string, entry: Entry): Need {
    Need(Normalize(name), NormalizeAll(entry.extras))
  }

  /** What a list of dependencies needs when `selected` are the selected optional packages. */
  function Needs(dependencies: seq<Dependency>, selected: set<Name>): set<Need> {
    set i, j | 0 <= i < |dependencies| && dependencies[i].spec.Entries? && 0 <= j < |dependencies[i].spec.entries|
               && IsWanted(dependencies[i].spec.entries[j], dependencies[i].name, selected) ::
      NeedOf(dependencies[i].name, dependencies[i].spec.entries[j])
  }

  /** What a package needs with these extras active. */
  function PackageNeeds(p: Package, active: set<Name>): set<Need> {
    Needs(p.dependencies, Selected(p, active))
  }

  /** The dependencies of the main group, without Python itself. */
  function Roots(manifest: seq<Dependency>): set<Need> {
    Needs(Required(manifest), {})
  }

  function Required(manifest: seq<Dependency>): seq<Dependency> {
    if manifest == [] then []
    else if manifest[|manifest| - 1].name == "python" then Required(manifest[..|manifest| - 1])
    else Required(manifest[..|manifest| - 1]) + [manifest[|manifest| - 1]]
  }

  // ----- Closed sets ----------------------------------------------------------------------------------------------

  predicate Covers(seen: Seen, need: Need) {
    need.name in seen && need.extras <= seen[need.name]
  }

  /** Everything that the package needs with its extras in `seen` is in `seen`. */
  ghost predicate Satisfied(lock: Lock, seen: Seen, name: Name)
    requires name in seen
  {
    name in lock ==> forall p, need | p in lock[name] && need in PackageNeeds(p, seen[name]) :: Covers(seen, need)
  }

  ghost predicate Closed(manifest: seq<Dependency>, lock: Lock, seen: Seen) {
    && (forall need | need in Roots(manifest) :: Covers(seen, need))
    && (forall name | name in seen :: Satisfied(lock, seen, name))
  }

  ghost predicate Below(a: Seen, b: Seen) {
    forall name | name in a :: name in b && a[name] <= b[name]
  }

  /** In every closed set, and so in the least one. */
  ghost predicate IsForced(manifest: seq<Dependency>, lock: Lock, need: Need) {
    forall other: Seen | Closed(manifest, lock, other) :: Covers(other, need)
  }

  /** More active extras need no less. */
  lemma NeedsGrow(p: Package, less: set<Name>, more: set<Name>)
    requires less <= more
    ensures PackageNeeds(p, less) <= PackageNeeds(p, more)
  {
    assert Selected(p, less) <= Selected(p, more);
  }

  // ----- One package ------------------------------------------------------------------------------------------------

  datatype Failure = InvalidSpec | InvalidRequirement | Missing(name: Name)

  /** An activated extra of the package has a requirement without a name. */
  predicate HasBadRequirement(p: Package, active: set<Name>) {
    exists e :: e in p.extras && Normalize(e) in active && None in p.extras[e]
  }

  predicate HasBadSpec(dependencies: seq<Dependency>) {
    exists i :: 0 <= i < |dependencies| && dependencies[i].spec.Invalid?
  }

  method CollectSelected(p: Package, active: set<Name>) returns (selected: set<Name>, bad: bool)
    ensures bad <==> HasBadRequirement(p, active)
    ensures !bad ==> selected == Selected(p, active)
  {
    selected, bad := {}, false;
    var todo := p.extras.Keys;
    while todo != {}
      invariant todo <= p.extras.Keys
      invariant forall e | e in p.extras.Keys - todo && Normalize(e) in active :: None !in p.extras[e]
      invariant selected == set e, i | e in p.extras.Keys - todo && Normalize(e) in active && 0 <= i < |p.extras[e]|
                                       && p.extras[e][i].Some? :: Normalize(p.extras[e][i].value)
      decreases todo
    {
      var e :| e in todo;
      if Normalize(e) in active {
        var names, found := CollectNames(p.extras[e]);
        if found { return selected, true; }
        selected := selected + names;
      }
      todo := todo - {e};
    }
  }

  method CollectNames(requirements: seq<Option<string>>) returns (names: set<Name>, bad: bool)
    ensures bad <==> None in requirements
    ensures !bad ==> names == set i | 0 <= i < |requirements| && requirements[i].Some? :: Normalize(requirements[i].value)
  {
    names := {};
    for i := 0 to |requirements|
      invariant None !in requirements[..i]
      invariant names == set j | 0 <= j < i && requirements[j].Some? :: Normalize(requirements[j].value)
    {
      if requirements[i].None? { return names, true; }
      names := names + {Normalize(requirements[i].value)};
    }
    return names, false;
  }

  /** Pushes what the dependencies need; the entries of a dependency in turn. */
  method PushNeeds(pending: seq<Need>, dependencies: seq<Dependency>, selected: set<Name>)
    returns (more: seq<Need>, bad: bool)
    ensures bad <==> HasBadSpec(dependencies)
    ensures !bad ==> |more| >= |pending| && more[..|pending|] == pending
    ensures !bad ==> forall need :: need in more[|pending|..] <==> need in Needs(dependencies, selected)
  {
    more, bad := pending, false;
    for i := 0 to |dependencies|
      invariant !HasBadSpec(dependencies[..i])
      invariant |more| >= |pending| && more[..|pending|] == pending
      invariant forall need :: need in more[|pending|..] <==> need in Needs(dependencies[..i], selected)
    {
      var d := dependencies[i];
      if d.spec.Invalid? { return more, true; }
      ghost var before := more;
      more := PushEntries(more, d.name, d.spec.entries, selected);
      assert more[|pending|..] == before[|pending|..] + more[|before|..];
      NeedsOneMore(dependencies, i, selected);
    }
    assert dependencies[..|dependencies|] == dependencies;
  }

  function EntryNeeds(name: string, entries: seq<Entry>, selected: set<Name>): set<Need> {
    set j | 0 <= j < |entries| && IsWanted(entries[j], name, selected) :: NeedOf(name, entries[j])
  }

  lemma NeedsOneMore(dependencies: seq<Dependency>, i: nat, selected: set<Name>)
    requires i < |dependencies| && dependencies[i].spec.Entries?
    ensures Needs(dependencies[..i + 1], selected)
         == Needs(dependencies[..i], selected) + EntryNeeds(dependencies[i].name, dependencies[i].spec.entries, selected)
  {
    var all, before := dependencies[..i + 1], dependencies[..i];
    assert all == before + [dependencies[i]];
    forall need | need in Needs(before, selected) ensures need in Needs(all, selected) {
      var k, j :| 0 <= k < |before| && before[k].spec.Entries? && 0 <= j < |before[k].spec.entries|
                  && IsWanted(before[k].spec.entries[j], before[k].name, selected)
                  && need == NeedOf(before[k].name, before[k].spec.entries[j]);
      assert all[k] == before[k];
    }
    forall need | need in EntryNeeds(dependencies[i].name, dependencies[i].spec.entries, selected)
      ensures need in Needs(all, selected)
    {
      assert all[i] == dependencies[i];
    }
  }

  method PushEntries(pending: seq<Need>, name: string, entries: seq<Entry>, selected: set<Name>)
    returns (more: seq<Need>)
    ensures |more| >= |pending| && more[..|pending|] == pending
    ensures forall need :: need in more[|pending|..] <==> need in EntryNeeds(name, entries, selected)
  {
    more := pending;
    for j := 0 to |entries|
      invariant |more| >= |pending| && more[..|pending|] == pending
      invariant forall need :: need in more[|pending|..] <==> need in EntryNeeds(name, entries[..j], selected)
    {
      assert entries[..j + 1] == entries[..j] + [entries[j]];
      ghost var before := more;
      if !(entries[j].optional && Normalize(name) !in selected) {
        more := more + [NeedOf(name, entries[j])];
        assert more[|pending|..] == before[|pending|..] + [NeedOf(name, entries[j])];
      }
      assert EntryNeeds(name, entries[..j + 1], selected)
          == EntryNeeds(name, entries[..j], selected)
             + if IsWanted(entries[j], name, selected) then {NeedOf(name, entries[j])} else {};
    }
    assert entries[..|entries|] == entries;
  }

  /** Nothing the closure reads of a package is malformed. */
  predicate IsClean(p: Package, active: set<Name>) {
    !HasBadRequirement(p, active) && !HasBadSpec(p.dependencies)
  }

  function AllNeeds(packages: seq<Package>, active: set<Name>): set<Need> {
    set i, need | 0 <= i < |packages| && need in PackageNeeds(packages[i], active) :: need
  }

  /** Pushes what every package of one name needs, or fails at a malformed one. */
  method Scan(pending: seq<Need>, packages: seq<Package>, active: set<Name>)
    returns (more: seq<Need>, failure: Option<Failure>)
    ensures failure.None? <==> forall p | p in packages :: IsClean(p, active)
    ensures failure.None? ==> |more| >= |pending| && more[..|pending|] == pending
    ensures failure.None? ==> forall need :: need in more[|pending|..] <==> need in AllNeeds(packages, active)
    ensures failure == Some(InvalidRequirement) ==> exists p :: p in packages && HasBadRequirement(p, active)
    ensures failure == Some(InvalidSpec) ==> exists p :: p in packages && HasBadSpec(p.dependencies)
    ensures failure.Some? ==> !failure.value.Missing?
  {
    more := pending;
    for i := 0 to |packages|
      invariant forall p | p in packages[..i] :: IsClean(p, active)
      invariant |more| >= |pending| && more[..|pending|] == pending
      invariant forall need :: need in more[|pending|..] <==> need in AllNeeds(packages[..i], active)
    {
      assert packages[..i + 1] == packages[..i] + [packages[i]];
      ghost var before := more;
      var selected, badRequirement := CollectSelected(packages[i], active);
      assert packages[i] in packages;
      if badRequirement {
        assert !IsClean(packages[i], active);
        return more, Some(InvalidRequirement);
      }
      var badSpec;
      more, badSpec := PushNeeds(more, packages[i].dependencies, selected);
      if badSpec {
        assert !IsClean(packages[i], active);
        return more, Some(InvalidSpec);
      }
      assert more[|pending|..] == before[|pending|..] + more[|before|..];
      assert AllNeeds(packages[..i + 1], active) == AllNeeds(packages[..i], active) + PackageNeeds(packages[i], active);
    }
    assert packages[..|packages|] == packages;
    return more, None;
  }

  // ----- The measure of the worklist ------------------------------------------------------------------------------------

  datatype Fact = IsSeen(name: Name) | HasExtra(name: Name, extra: Name)

  function Facts(seen: Seen): set<Fact> {
    (set n | n in seen :: IsSeen(n)) + (set n, e | n in seen && e in seen[n] :: HasExtra(n, e))
  }

  /** Every extra that a dependency names. */
  function ExtrasOf(dependencies: seq<Dependency>): set<Name> {
    set i, j, e | 0 <= i < |dependencies| && dependencies[i].spec.Entries? && 0 <= j < |dependencies[i].spec.entries|
                  && e in NormalizeAll(dependencies[i].spec.entries[j].extras) :: e
  }

  function AllExtras(manifest: seq<Dependency>, lock: Lock): set<Name> {
    ExtrasOf(Required(manifest))
    + set n, i, e | n in lock && 0 <= i < |lock[n]| && e in ExtrasOf(lock[n][i].dependencies) :: e
  }

  function Universe(manifest: seq<Dependency>, lock: Lock): set<Fact> {
    (set n | n in lock :: IsSeen(n)) + (set n, e | n in lock && e in AllExtras(manifest, lock) :: HasExtra(n, e))
  }

  lemma NeedsAreNamed(dependencies: seq<Dependency>, selected: set<Name>, need: Need)
    requires need in Needs(dependencies, selected)
    ensures need.extras <= ExtrasOf(dependencies)
  {}

  lemma PackageNeedsAreNamed(manifest: seq<Dependency>, lock: Lock, name: Name, active: set<Name>, need: Need)
    requires name in lock && need in AllNeeds(lock[name], active)
    ensures need.extras <= AllExtras(manifest, lock)
  {
    var i :| 0 <= i < |lock[name]| && need in PackageNeeds(lock[name][i], active);
    NeedsAreNamed(lock[name][i].dependencies, Selected(lock[name][i], active), need);
  }

  // ----- The worklist -------------------------------------------------------------------------------------------------------

  /** `seen.setdefault(name, set()).update(extras)` */
  function Added(seen: Seen, need: Need): Seen {
    seen[need.name := (if need.name in seen then seen[need.name] else {}) + need.extras]
  }

  /** A name with its needs on the stack or in `seen`. */
  ghost predicate Followed(lock: Lock, seen: Seen, pending: seq<Need>, name: Name)
    requires name in seen
  {
    && name in lock && (forall p | p in lock[name] :: IsClean(p, seen[name]))
    && forall need | need in AllNeeds(lock[name], seen[name]) :: Covers(seen, need) || need in pending
  }

  ghost predicate IsKnownNeed(manifest: seq<Dependency>, lock: Lock, need: Need) {
    IsForced(manifest, lock, need) && need.extras <= AllExtras(manifest, lock)
  }

  /** All that was seen or is pending lies in every closed set, and all that is needed was seen or is pending. */
  ghost predicate Work(manifest: seq<Dependency>, lock: Lock, seen: Seen, pending: seq<Need>) {
    && (forall need | need in Roots(manifest) :: Covers(seen, need) || need in pending)
    && (forall name | name in seen :: Followed(lock, seen, pending, name))
    && (forall need | need in pending :: IsKnownNeed(manifest, lock, need))
    && (forall name | name in seen :: IsKnownNeed(manifest, lock, Need(name, seen[name])))
  }

  lemma AddedIsKnown(manifest: seq<Dependency>, lock: Lock, seen: Seen, need: Need)
    requires IsKnownNeed(manifest, lock, need)
    requires need.name in seen ==> IsKnownNeed(manifest, lock, Need(need.name, seen[need.name]))
    ensures IsKnownNeed(manifest, lock, Need(need.name, Added(seen, need)[need.name]))
  {
    forall other: Seen | Closed(manifest, lock, other) ensures Covers(other, Need(need.name, Added(seen, need)[need.name])) {
      assert Covers(other, need);
      if need.name in seen { assert Covers(other, Need(need.name, seen[need.name])); }
    }
  }

  /** What a name in every closed set needs is in every closed set. */
  lemma NeedsAreForced(manifest: seq<Dependency>, lock: Lock, name: Name, active: set<Name>, need: Need)
    requires name in lock && IsForced(manifest, lock, Need(name, active)) && need in AllNeeds(lock[name], active)
    ensures IsForced(manifest, lock, need)
  {
    var i :| 0 <= i < |lock[name]| && need in PackageNeeds(lock[name][i], active);
    forall other: Seen | Closed(manifest, lock, other) ensures Covers(other, need) {
      assert Covers(other, Need(name, active));
      NeedsGrow(lock[name][i], active, other[name]);
      assert Satisfied(lock, other, name);
    }
  }

  lemma RootsAreKnown(manifest: seq<Dependency>, lock: Lock, need: Need)
    requires need in Roots(manifest)
    ensures IsKnownNeed(manifest, lock, need)
  {
    NeedsAreNamed(Required(manifest), {}, need);
  }

  lemma WorkStarts(manifest: seq<Dependency>, lock: Lock, pending: seq<Need>)
    requires forall need :: need in pending <==> need in Roots(manifest)
    ensures Work(manifest, lock, map[], pending)
  {
    forall need | need in pending ensures IsKnownNeed(manifest, lock, need) { RootsAreKnown(manifest, lock, need); }
  }

  /** A need that is covered already can go. */
  lemma SkipStep(manifest: seq<Dependency>, lock: Lock, seen: Seen, stack: seq<Need>, need: Need)
    requires stack != [] && need == stack[|stack| - 1] && Work(manifest, lock, seen, stack) && Covers(seen, need)
    ensures Work(manifest, lock, seen, stack[..|stack| - 1])
  {
    assert stack == stack[..|stack| - 1] + [need];
    forall name | name in seen ensures Followed(lock, seen, stack[..|stack| - 1], name) {
      assert Followed(lock, seen, stack, name);
    }
  }

  lemma FollowedStays(lock: Lock, seen: Seen, stack: seq<Need>, pending: seq<Need>, need: Need, name: Name)
    requires stack != [] && need == stack[|stack| - 1] && name in seen && name != need.name && Followed(lock, seen, stack, name)
    requires |pending| >= |stack| - 1 && pending[..|stack| - 1] == stack[..|stack| - 1]
    ensures Followed(lock, Added(seen, need), pending, name)
  {
    assert stack == stack[..|stack| - 1] + [need] && pending == pending[..|stack| - 1] + pending[|stack| - 1..];
    forall other | other in AllNeeds(lock[name], seen[name]) ensures Covers(Added(seen, need), other) || other in pending {
      assert Covers(seen, other) || other in stack;
    }
  }

  /** A new need is added with all that its packages need, again in full when only its extras are new. */
  lemma AddStep(manifest: seq<Dependency>, lock: Lock, seen: Seen, stack: seq<Need>, need: Need, pending: seq<Need>)
    requires stack != [] && need == stack[|stack| - 1] && Work(manifest, lock, seen, stack) && need.name in lock
    requires forall p | p in lock[need.name] :: IsClean(p, Added(seen, need)[need.name])
    requires |pending| >= |stack| - 1 && pending[..|stack| - 1] == stack[..|stack| - 1]
    requires forall x :: x in pending[|stack| - 1..] <==> x in AllNeeds(lock[need.name], Added(seen, need)[need.name])
    ensures Work(manifest, lock, Added(seen, need), pending)
  {
    var after := Added(seen, need);
    assert stack == stack[..|stack| - 1] + [need] && pending == pending[..|stack| - 1] + pending[|stack| - 1..];
    AddedIsKnown(manifest, lock, seen, need);
    forall name | name in after ensures Followed(lock, after, pending, name) {
      if name != need.name { FollowedStays(lock, seen, stack, pending, need, name); }
    }
    forall x | x in pending ensures IsKnownNeed(manifest, lock, x) {
      if x !in stack {
        NeedsAreForced(manifest, lock, need.name, after[need.name], x);
        PackageNeedsAreNamed(manifest, lock, need.name, after[need.name], x);
      }
    }
  }

  lemma FactsAdded(seen: Seen, need: Need)
    ensures Facts(Added(seen, need))
         == Facts(seen) + {IsSeen(need.name)} + set e | e in need.extras :: HasExtra(need.name, e)
  {
    var after, added := Added(seen, need), set e | e in need.extras :: HasExtra(need.name, e);
    forall f ensures f in Facts(after) <==> f in Facts(seen) + {IsSeen(need.name)} + added {
      match f
      case IsSeen(n) =>
      case HasExtra(n, e) =>
        if n == need.name && e in need.extras { assert HasExtra(need.name, e) in added; }
    }
  }

  lemma NeedIsInUniverse(manifest: seq<Dependency>, lock: Lock, need: Need)
    requires need.name in lock && need.extras <= AllExtras(manifest, lock)
    ensures IsSeen(need.name) in Universe(manifest, lock)
    ensures (set e | e in need.extras :: HasExtra(need.name, e)) <= Universe(manifest, lock)
  {}

  lemma FactsGrow(manifest: seq<Dependency>, lock: Lock, seen: Seen, need: Need)
    requires need.name in lock && need.extras <= AllExtras(manifest, lock) && !Covers(seen, need)
    requires Facts(seen) <= Universe(manifest, lock)
    ensures Facts(Added(seen, need)) <= Universe(manifest, lock)
    ensures |Universe(manifest, lock) - Facts(Added(seen, need))| < |Universe(manifest, lock) - Facts(seen)|
  {
    var all, before, after := Universe(manifest, lock), Facts(seen), Facts(Added(seen, need));
    FactsAdded(seen, need);
    NeedIsInUniverse(manifest, lock, need);
    var fact := if need.name !in seen then IsSeen(need.name)
                else var e :| e in need.extras && e !in seen[need.name]; HasExtra(need.name, e);
    assert fact !in before && fact in after by { NewFact(seen, need, fact); }
    Shrinks(all, before, after, fact);
  }

  lemma NewFact(seen: Seen, need: Need, fact: Fact)
    requires (fact == IsSeen(need.name) && need.name !in seen)
             || (fact.HasExtra? && fact.name == need.name && fact.extra in need.extras && need.name in seen
                 && fact.extra !in seen[need.name])
    ensures fact !in Facts(seen) && fact in Facts(Added(seen, need))
  {}

  lemma Shrinks<T>(all: set<T>, before: set<T>, after: set<T>, x: T)
    requires before <= after && x in all && x !in before && x in after
    ensures |all - after| < |all - before|
  {
    assert x in all - before && x !in all - after;
    ProperSubsetIsSmaller(all - after, all - before);
  }

  /** A package that every closed set holds with these extras is malformed. */
  ghost predicate IsBroken(manifest: seq<Dependency>, lock: Lock, name: Name, active: set<Name>) {
    && IsForced(manifest, lock, Need(name, active)) && name in lock
    && exists p :: p in lock[name] && !IsClean(p, active)
  }

  /** The least closed set, all in the lock and well-formed. */
  ghost predicate IsClosure(manifest: seq<Dependency>, lock: Lock, seen: Seen) {
    && Closed(manifest, lock, seen) && (forall other: Seen | Closed(manifest, lock, other) :: Below(seen, other))
    && seen.Keys <= lock.Keys && (forall name, p | name in seen && p in lock[name] :: IsClean(p, seen[name]))
    && !HasBadSpec(Required(manifest))
  }

  /** What a failure says: the least closed set is not all in the lock, or something it reads is malformed. */
  ghost predicate IsJustified(manifest: seq<Dependency>, lock: Lock, failure: Failure) {
    match failure
    case Missing(name) => name !in lock && IsForced(manifest, lock, Need(name, {}))
    case _ => HasBadSpec(Required(manifest)) || exists name, active :: IsBroken(manifest, lock, name, active)
  }

  /** A justified failure excludes a closure: no closed set lies in the lock, or what each of them reads is malformed. */
  lemma JustifiedHasNoClosure(manifest: seq<Dependency>, lock: Lock, failure: Failure)
    requires IsJustified(manifest, lock, failure)
    ensures forall seen :: !IsClosure(manifest, lock, seen)
  {
    forall seen | Closed(manifest, lock, seen) ensures !IsClosure(manifest, lock, seen) {
      match failure
      case Missing(name) => assert Covers(seen, Need(name, {}));
      case _ =>
        if !HasBadSpec(Required(manifest)) {
          var name, active :| IsBroken(manifest, lock, name, active);
          assert Covers(seen, Need(name, active));
          var p :| p in lock[name] && !IsClean(p, active);
          MalformedStays(p, active, seen[name]);
        }
    }
  }

  /** What is malformed with some extras active is with more. */
  lemma MalformedStays(p: Package, less: set<Name>, more: set<Name>)
    requires less <= more && !IsClean(p, less)
    ensures !IsClean(p, more)
  {
    if HasBadRequirement(p, less) {
      var e :| e in p.extras && Normalize(e) in less && None in p.extras[e];
      assert e in p.extras && Normalize(e) in more && None in p.extras[e];
    }
  }

  lemma WorkDone(manifest: seq<Dependency>, lock: Lock, seen: Seen)
    requires Work(manifest, lock, seen, []) && !HasBadSpec(Required(manifest))
    ensures IsClosure(manifest, lock, seen)
  {
    forall name | name in seen ensures Satisfied(lock, seen, name) && name in lock {
      assert Followed(lock, seen, [], name);
      forall p, need | p in lock[name] && need in PackageNeeds(p, seen[name]) ensures Covers(seen, need) {
        assert need in AllNeeds(lock[name], seen[name]);
      }
    }
    forall other: Seen | Closed(manifest, lock, other) ensures Below(seen, other) {
      forall name | name in seen ensures name in other && seen[name] <= other[name] {
        assert IsKnownNeed(manifest, lock, Need(name, seen[name]));
        assert Covers(other, Need(name, seen[name]));
      }
    }
  }

  lemma ScanBreaks(manifest: seq<Dependency>, lock: Lock, name: Name, active: set<Name>)
    requires IsKnownNeed(manifest, lock, Need(name, active)) && name in lock
    requires !forall p | p in lock[name] :: IsClean(p, active)
    ensures forall failure: Failure | !failure.Missing? :: IsJustified(manifest, lock, failure)
  {
    assert IsBroken(manifest, lock, name, active);
  }

  lemma MissingBreaks(manifest: seq<Dependency>, lock: Lock, need: Need)
    requires IsKnownNeed(manifest, lock, need) && need.name !in lock
    ensures IsJustified(manifest, lock, Missing(need.name))
  {
    forall other: Seen | Closed(manifest, lock, other) ensures Covers(other, Need(need.name, {})) {
      assert Covers(other, need);
    }
  }

  /** Adds a need that is not covered yet and pushes, in full, what its packages need now. */
  method Follow(manifest: seq<Dependency>, lock: Lock, seen: Seen, stack: seq<Need>)
    returns (after: Seen, pending: seq<Need>, failure: Option<Failure>)
    requires stack != [] && Work(manifest, lock, seen, stack) && Facts(seen) <= Universe(manifest, lock)
    requires !Covers(seen, stack[|stack| - 1])
    ensures failure.Some? ==> IsJustified(manifest, lock, failure.value)
    ensures failure.None? ==>
              && Work(manifest, lock, after, pending) && Facts(after) <= Universe(manifest, lock)
              && |Universe(manifest, lock) - Facts(after)| < |Universe(manifest, lock) - Facts(seen)|
  {
    var need := stack[|stack| - 1];
    assert need in stack && IsKnownNeed(manifest, lock, need);
    after, pending := seen, stack[..|stack| - 1];
    if need.name !in lock {
      MissingBreaks(manifest, lock, need);
      return after, pending, Some(Missing(need.name));
    }
    after := Added(seen, need);
    pending, failure := Scan(pending, lock[need.name], after[need.name]);
    if failure.Some? {
      AddedIsKnown(manifest, lock, seen, need);
      ScanBreaks(manifest, lock, need.name, after[need.name]);
      return after, pending, failure;
    }
    AddStep(manifest, lock, seen, stack, need, pending);
    FactsGrow(manifest, lock, seen, need);
  }

  /**
   `runtime_closure`: the least set of packages that is closed under the dependencies it activates. It fails exactly
   when that set holds a package that is not in the lock or is malformed, or when the manifest is.
   */
  method Closure(manifest: seq<Dependency>, lock: Lock) returns (seen: Seen, failure: Option<Failure>)
    ensures failure.None? ==> IsClosure(manifest, lock, seen)
    ensures failure.Some? ==> IsJustified(manifest, lock, failure.value)
    ensures failure.Some? <==> forall other :: !IsClosure(manifest, lock, other)
  {
    seen := map[];
    var pending, bad := PushNeeds([], Required(manifest), {});
    if bad {
      JustifiedHasNoClosure(manifest, lock, InvalidSpec);
      return seen, Some(InvalidSpec);
    }
    assert pending[0..] == pending;
    WorkStarts(manifest, lock, pending);
    while pending != []
      invariant Work(manifest, lock, seen, pending)
      invariant Facts(seen) <= Universe(manifest, lock)
      decreases |Universe(manifest, lock) - Facts(seen)|, |pending|
    {
      var need := pending[|pending| - 1];
      if need.name in seen && need.extras <= seen[need.name] {
        SkipStep(manifest, lock, seen, pending, need);
        pending := pending[..|pending| - 1];
      } else {
        seen, pending, failure := Follow(manifest, lock, seen, pending);
        if failure.Some? {
          JustifiedHasNoClosure(manifest, lock, failure.value);
          return;
        }
      }
    }
    WorkDone(manifest, lock, seen);
    return seen, None;
  }

  /** The closure does not depend on the order in which the needs are followed. */
  lemma ClosureIsUnique(manifest: seq<Dependency>, lock: Lock, a: Seen, b: Seen)
    requires IsClosure(manifest, lock, a) && IsClosure(manifest, lock, b)
    ensures a == b
  {
    assert Below(a, b) && Below(b, a);
    forall name | name in a ensures name in b && a[name] == b[name] {}
    assert a.Keys == b.Keys;
  }

  // ----- What the closure holds ----------------------------------------------------------------------------------------

  /** The dependency is required, or some active extra of the package names it. */
  ghost predicate IsRequired(p: Package, active: set<Name>, d: Dependency, entry: Entry) {
    && d in p.dependencies && d.spec.Entries? && entry in d.spec.entries
    && (entry.optional ==> exists e, r :: e in p.extras && Normalize(e) in active && Some(r) in p.extras[e]
                                          && Normalize(r) == Normalize(d.name))
  }

  lemma RequiredIsNeeded(p: Package, active: set<Name>, d: Dependency, entry: Entry)
    ensures IsRequired(p, active, d, entry) ==> NeedOf(d.name, entry) in PackageNeeds(p, active)
  {
    if IsRequired(p, active, d, entry) {
      var i :| 0 <= i < |p.dependencies| && p.dependencies[i] == d;
      var j :| 0 <= j < |d.spec.entries| && d.spec.entries[j] == entry;
      if entry.optional {
        var e, r :| e in p.extras && Normalize(e) in active && Some(r) in p.extras[e] && Normalize(r) == Normalize(d.name);
        var k :| 0 <= k < |p.extras[e]| && p.extras[e][k] == Some(r);
        assert Normalize(p.extras[e][k].value) in Selected(p, active);
      }
      assert IsWanted(p.dependencies[i].spec.entries[j], p.dependencies[i].name, Selected(p, active));
    }
  }

  lemma NeededIsRequired(p: Package, active: set<Name>, need: Need) returns (d: Dependency, entry: Entry)
    requires need in PackageNeeds(p, active)
    ensures IsRequired(p, active, d, entry) && need == NeedOf(d.name, entry)
  {
    var selected := Selected(p, active);
    var i, j :| 0 <= i < |p.dependencies| && p.dependencies[i].spec.Entries? && 0 <= j < |p.dependencies[i].spec.entries|
                && IsWanted(p.dependencies[i].spec.entries[j], p.dependencies[i].name, selected)
                && need == NeedOf(p.dependencies[i].name, p.dependencies[i].spec.entries[j]);
    d := p.dependencies[i];
    entry := d.spec.entries[j];
    if entry.optional {
      var e, k :| e in p.extras && Normalize(e) in active && 0 <= k < |p.extras[e]| && p.extras[e][k].Some?
                  && Normalize(p.extras[e][k].value) == Normalize(d.name);
      assert Some(p.extras[e][k].value) in p.extras[e];
    }
  }

  /** The main group requires it: not Python, and not optional. */
  ghost predicate IsMain(manifest: seq<Dependency>, d: Dependency, entry: Entry) {
    d in manifest && d.name != "python" && d.spec.Entries? && entry in d.spec.entries && !entry.optional
  }

  lemma {:induction false} RequiredAreMain(manifest: seq<Dependency>, d: Dependency)
    ensures d in Required(manifest) <==> d in manifest && d.name != "python"
  {
    if manifest != [] {
      var n := |manifest| - 1;
      RequiredAreMain(manifest[..n], d);
      assert manifest == manifest[..n] + [manifest[n]];
    }
  }

  lemma RootsAreMain(manifest: seq<Dependency>, need: Need)
    ensures need in Roots(manifest) <==> exists d, entry :: IsMain(manifest, d, entry) && need == NeedOf(d.name, entry)
  {
    var required := Required(manifest);
    if need in Roots(manifest) {
      var i, j :| 0 <= i < |required| && required[i].spec.Entries? && 0 <= j < |required[i].spec.entries|
                  && IsWanted(required[i].spec.entries[j], required[i].name, {})
                  && need == NeedOf(required[i].name, required[i].spec.entries[j]);
      RequiredAreMain(manifest, required[i]);
      assert IsMain(manifest, required[i], required[i].spec.entries[j]);
    }
    if d, entry :| IsMain(manifest, d, entry) && need == NeedOf(d.name, entry) {
      RequiredAreMain(manifest, d);
      var i :| 0 <= i < |required| && required[i] == d;
      var j :| 0 <= j < |d.spec.entries| && d.spec.entries[j] == entry;
      assert IsWanted(required[i].spec.entries[j], required[i].name, {});
    }
  }

  /** The closure holds, with its extras, what the main group requires and what any package in it requires. */
  lemma ClosureHoldsRequired(manifest: seq<Dependency>, lock: Lock, seen: Seen, d: Dependency, entry: Entry)
    requires IsClosure(manifest, lock, seen)
    requires IsMain(manifest, d, entry)
             || exists name, p :: name in seen && name in lock && p in lock[name] && IsRequired(p, seen[name], d, entry)
    ensures Normalize(d.name) in seen && NormalizeAll(entry.extras) <= seen[Normalize(d.name)]
  {
    var need := NeedOf(d.name, entry);
    if IsMain(manifest, d, entry) {
      RootsAreMain(manifest, need);
      assert Covers(seen, need);
    } else {
      var name, p :| name in seen && name in lock && p in lock[name] && IsRequired(p, seen[name], d, entry);
      RequiredIsNeeded(p, seen[name], d, entry);
      assert Satisfied(lock, seen, name) && Covers(seen, need);
    }
  }

  /** The package is in the closure for a reason: the main group requires it, or another package in the closure does. */
  ghost predicate HasReason(manifest: seq<Dependency>, lock: Lock, seen: Seen, name: Name) {
    || (exists d, entry :: IsMain(manifest, d, entry) && Normalize(d.name) == name)
    || (exists from, p, d, entry :: from in seen && from != name && from in lock && p in lock[from]
                                    && IsRequired(p, seen[from], d, entry) && Normalize(d.name) == name)
  }

  /** Nothing is in the closure without a reason. */
  lemma ClosureHoldsNoMore(manifest: seq<Dependency>, lock: Lock, seen: Seen, name: Name)
    requires IsClosure(manifest, lock, seen) && name in seen
    ensures HasReason(manifest, lock, seen, name)
  {
    if !HasReason(manifest, lock, seen, name) {
      var other := seen - {name};
      forall need | need in Roots(manifest) ensures Covers(other, need) {
        RootsAreMain(manifest, need);
        assert Covers(seen, need);
      }
      forall from | from in other ensures Satisfied(lock, other, from) {
        if from in lock {
          assert Satisfied(lock, seen, from);
          forall p, need | p in lock[from] && need in PackageNeeds(p, other[from]) ensures Covers(other, need) {
            var d, entry := NeededIsRequired(p, seen[from], need);
            assert Covers(seen, need);
          }
        }
      }
      assert Closed(manifest, lock, other);
    }
  }

  // ----- Names -----------------------------------------------------------------------------------------------------------

  /** A normal name has no upper-case letter and no separator but single hyphens. */
  predicate IsNormal(name: string) {
    && (forall i | 0 <= i < |name| :: !('A' <= name[i] <= 'Z') && name[i] != '_' && name[i] != '.')
    && (forall i | 0 <= i < |name| - 1 :: !(name[i] == '-' && name[i + 1] == '-'))
  }

  lemma {:induction false} NormalizeFromIsNormal(name: string, after: bool)
    ensures var n := NormalizeFrom(name, after); IsNormal(n) && (after ==> n == "" || n[0] != '-')
  {
    if name != "" {
      NormalizeFromIsNormal(name[1..], IsSeparator(name[0]));
    }
  }

  lemma {:induction false} NormalIsKept(name: string, after: bool)
    requires IsNormal(name) && (after && name != "" ==> name[0] != '-')
    ensures NormalizeFrom(name, after) == name
  {
    if name != "" {
      assert forall i | 0 <= i < |name[1..]| :: name[1..][i] == name[i + 1];
      NormalIsKept(name[1..], IsSeparator(name[0]));
    }
  }

  predicate AreSeparators(run: string) {
    run != "" && forall i | 0 <= i < |run| :: IsSeparator(run[i])
  }

  lemma {:induction false} RunIsOne(run: string, rest: string, after: bool)
    requires AreSeparators(run)
    ensures NormalizeFrom(run + rest, after) == (if after then "" else "-") + NormalizeFrom(rest, true)
  {
    assert (run + rest)[0] == run[0] && (run + rest)[1..] == run[1..] + rest;
    if |run| > 1 { RunIsOne(run[1..], rest, true); } else { assert run[1..] + rest == rest; }
  }

  lemma {:induction false} SameFront(front: string, a: string, b: string, after: bool)
    requires forall s :: NormalizeFrom(a, s) == NormalizeFrom(b, s)
    ensures NormalizeFrom(front + a, after) == NormalizeFrom(front + b, after)
  {
    if front == "" {
      assert front + a == a && front + b == b;
    } else {
      assert (front + a)[0] == front[0] == (front + b)[0];
      assert (front + a)[1..] == front[1..] + a && (front + b)[1..] == front[1..] + b;
      SameFront(front[1..], a, b, IsSeparator(front[0]));
    }
  }

  /**
   `normalize` gives a normal name and keeps one; and names that differ in a run of separators or in the case of a letter
   have the same. Since any name is made normal by such changes, this is all there is to it.
   */
  lemma NormalizeIsExact(name: string, front: string, run: string, other: string, letter: char, rest: string)
    requires AreSeparators(run) && AreSeparators(other) && 'A' <= letter <= 'Z'
    ensures IsNormal(Normalize(name)) && (IsNormal(name) ==> Normalize(name) == name)
    ensures Normalize(front + (run + rest)) == Normalize(front + (other + rest))
    ensures Normalize(front + ([letter] + rest)) == Normalize(front + ([letter - 'A' + 'a'] + rest))
  {
    NormalizeFromIsNormal(name, false);
    if IsNormal(name) { NormalIsKept(name, false); }
    forall s ensures NormalizeFrom(run + rest, s) == NormalizeFrom(other + rest, s) {
      RunIsOne(run, rest, s);
      RunIsOne(other, rest, s);
    }
    SameFront(front, run + rest, other + rest, false);
    forall s ensures NormalizeFrom([letter] + rest, s) == NormalizeFrom([letter - 'A' + 'a'] + rest, s) {
      assert ([letter] + rest)[1..] == rest && ([letter - 'A' + 'a'] + rest)[1..] == rest;
    }
    SameFront(front, [letter] + rest, [letter - 'A' + 'a'] + rest, false);
  }
}
