/** ironmlx-app/Sources/IronMLXAppCore/AppConfig.swift: the loaded, pinned and default model references. */
module ModelLists {
  import opened Basics

  /** The three fields the mutators work on. */
  datatype Config = Config(defaultModel: Option<string>, loaded: Option<seq<string>>, pinned: Option<seq<string>>)

  // ---- One reference -------------------------------------------------------------

  /** `normalizedModelReference`. */
  function Reference(value: Option<string>, space: Space): Option<string> {
    if value.None? || Trim(value.value, space) == "" then None else Some(Trim(value.value, space))
  }

  /** Neither end is a space. */
  predicate Clean(s: string, space: Space) {
    |s| > 0 && !space(s[0]) && !space(s[|s| - 1])
  }

  /** A reference is the text between the white space at both ends; a text of white space alone is none. */
  lemma ReferenceIsSlice(s: string, space: Space) returns (i: nat, j: nat)
    ensures IsTrimmed(s, space, i, j)
    ensures Reference(Some(s), space) == if i == j then None else Some(s[i..j])
  {
    hide Trim;
    i, j := TrimIsSlice(s, space);
  }

  /** A reference is non-empty and trimmed, and normalising it again changes nothing. */
  lemma ReferenceIsClean(value: Option<string>, space: Space)
    requires Reference(value, space).Some?
    ensures Clean(Reference(value, space).value, space)
  {
    hide Reference;
    assert value.Some? by { NoReference(space); }
    var i, j := ReferenceIsSlice(value.value, space);
  }

  lemma NoReference(space: Space)
    ensures Reference(None, space) == None
  {
  }

  lemma CleanIsReference(s: string, space: Space)
    requires Clean(s, space)
    ensures Reference(Some(s), space) == Some(s)
  {
    hide Trim;
    TrimClean(s, space);
  }

  // ---- Lists of references -------------------------------------------------------

  /** `normalizedModelReferences`: trimmed, non-empty, first occurrences only. */
  function Normalize(values: seq<string>, space: Space): seq<string> {
    if |values| == 0 then []
    else
      var front := Normalize(values[..|values| - 1], space);
      var r := Reference(Some(values[|values| - 1]), space);
      if r.None? || r.value in front then front else front + [r.value]
  }

  /** The loop with its `seen` set. */
  method NormalizeList(values: seq<string>, space: Space) returns (references: seq<string>)
    ensures references == Normalize(values, space)
  {
    var seen: set<string> := {};
    references := [];
    for i := 0 to |values|
      invariant references == Normalize(values[..i], space)
      invariant forall r :: r in seen <==> r in references
    {
      assert values[..i + 1][..i] == values[..i];
      var reference := Reference(Some(values[i]), space);
      if reference.None? || reference.value in seen {
        continue;
      }
      seen := seen + {reference.value};
      references := references + [reference.value];
    }
    assert values[..|values|] == values;
  }

  predicate Distinct(s: seq<string>) {
    forall i, j :: 0 <= i < j < |s| ==> s[i] != s[j]
  }

  /** What validation demands of a list: it is its own normal form. */
  predicate NormalForm(s: seq<string>, space: Space) {
    Distinct(s) && forall i :: 0 <= i < |s| ==> Clean(s[i], space)
  }

  lemma {:induction false} NormalizeGivesNormalForm(values: seq<string>, space: Space)
    ensures NormalForm(Normalize(values, space), space)
  {
    if |values| > 0 {
      NormalizeGivesNormalForm(values[..|values| - 1], space);
      var r := Reference(Some(values[|values| - 1]), space);
      if r.Some? { ReferenceIsClean(Some(values[|values| - 1]), space); }
    }
  }

  lemma {:induction false} NormalFormIsFixed(s: seq<string>, space: Space)
    requires NormalForm(s, space)
    ensures Normalize(s, space) == s
  {
    if |s| > 0 {
      NormalFormIsFixed(s[..|s| - 1], space);
      CleanIsReference(s[|s| - 1], space);
      assert s == s[..|s| - 1] + [s[|s| - 1]];
    }
  }

  /** A list equals its normal form exactly when it is trimmed, non-empty entry by entry, and free of repeats. */
  lemma FixedIffNormalForm(s: seq<string>, space: Space)
    ensures s == Normalize(s, space) <==> NormalForm(s, space)
    ensures Normalize(Normalize(s, space), space) == Normalize(s, space)
  {
    NormalizeGivesNormalForm(s, space);
    NormalFormIsFixed(Normalize(s, space), space);
    if NormalForm(s, space) { NormalFormIsFixed(s, space); }
  }

  /** Position in `values` of the first entry that stands for r, or the length. */
  function FirstFor(values: seq<string>, r: string, space: Space): (i: nat)
    ensures i <= |values|
    ensures i < |values| ==> Reference(Some(values[i]), space) == Some(r)
    ensures forall j :: 0 <= j < i ==> Reference(Some(values[j]), space) != Some(r)
  {
    if |values| == 0 then 0
    else
      var front := values[..|values| - 1];
      var k := FirstFor(front, r, space);
      if k < |front| then k
      else if Reference(Some(values[|front|]), space) == Some(r) then |front| else |values|
  }

  lemma FirstForFront(values: seq<string>, r: string, space: Space)
    requires |values| > 0
    ensures var front := values[..|values| - 1];
            if FirstFor(front, r, space) < |front| then FirstFor(values, r, space) == FirstFor(front, r, space)
            else FirstFor(values, r, space) >= |front|
  {
  }

  /** The list n follows the order in which its entries first occur in `values`. */
  ghost predicate ByFirstOccurrence(values: seq<string>, n: seq<string>, space: Space) {
    forall i, j :: 0 <= i < j < |n| ==> FirstFor(values, n[i], space) < FirstFor(values, n[j], space)
  }

  /** The normal form holds exactly the references that occur, in the order of their first occurrences. */
  lemma {:induction false} NormalizeKeepsOrder(values: seq<string>, space: Space)
    ensures forall r :: r in Normalize(values, space) <==> FirstFor(values, r, space) < |values|
    ensures ByFirstOccurrence(values, Normalize(values, space), space)
  {
    hide Reference;
    if |values| > 0 {
      var front := values[..|values| - 1];
      NormalizeKeepsOrder(front, space);
      var n, m := Normalize(values, space), Normalize(front, space);
      forall i, j | 0 <= i < j < |n| ensures FirstFor(values, n[i], space) < FirstFor(values, n[j], space) {
        assert n[i] == m[i] && m[i] in m;
        FirstForFront(values, n[i], space);
        FirstForFront(values, n[j], space);
        if j < |m| {
          assert n[j] == m[j] && m[j] in m;
        } else {
          assert n[j] !in m;
        }
      }
    }
  }

  // ---- Derived lists -------------------------------------------------------------

  function OrEmpty(list: Option<seq<string>>): seq<string> {
    if list.Some? then list.value else []
  }

  function IndexOf(s: seq<string>, r: string): (i: nat)
    ensures i <= |s| && (i < |s| ==> s[i] == r) && (i == |s| ==> r !in s)
  {
    if |s| == 0 || s[0] == r then 0 else 1 + IndexOf(s[1..], r)
  }

  /** `restoredModelReferences`: the loaded list with the default moved to the front. */
  function Restored(c: Config, space: Space): seq<string> {
    var references := Normalize(OrEmpty(c.loaded), space);
    var default := Reference(c.defaultModel, space);
    if default.None? then references
    else
      var index := IndexOf(references, default.value);
      if index == |references| || index == 0 then references
      else [default.value] + (references[..index] + references[index + 1..])
  }

  lemma FrontPermutes<T>(front: seq<T>, d: T, back: seq<T>)
    ensures multiset([d] + (front + back)) == multiset(front + [d] + back)
    ensures forall r :: r in [d] + (front + back) <==> r in front + [d] + back
  {
    assert multiset([d] + (front + back)) == multiset{d} + (multiset(front) + multiset(back));
    assert multiset(front + [d] + back) == multiset(front) + multiset{d} + multiset(back);
  }

  lemma SplitAround<T>(s: seq<T>, i: nat)
    requires i < |s|
    ensures s == s[..i] + [s[i]] + s[i + 1..]
    ensures i == 0 ==> [s[i]] + (s[..i] + s[i + 1..]) == s
  {
  }

  /** Moving one entry to the front permutes the list and keeps the others in order. */
  lemma MovedToFront(references: seq<string>, index: nat)
    requires Distinct(references) && index < |references|
    ensures var moved := [references[index]] + (references[..index] + references[index + 1..]);
            && multiset(moved) == multiset(references)
            && (forall r :: r in moved <==> r in references)
            && moved[1..] == Without(references, references[index])
            && (index == 0 ==> moved == references)
  {
    hide *;
    var front, d, back := references[..index], references[index], references[index + 1..];
    SplitAround(references, index);
    ElsewhereAbsent(references, index);
    WithoutMiddle(front, d, back);
    FrontPermutes(front, d, back);
    AfterFirst(d, front + back);
  }

  lemma ElsewhereAbsent(s: seq<string>, i: nat)
    requires Distinct(s) && i < |s|
    ensures s[i] !in s[..i] && s[i] !in s[i + 1..]
  {
  }

  lemma AfterFirst<T>(d: T, rest: seq<T>)
    ensures ([d] + rest)[1..] == rest && ([d] + rest)[0] == d
  {
  }

  /** The restored list is a permutation of the loaded one; a loaded default comes first, the others keep their
      order. */
  lemma RestoredIsPermutation(c: Config, space: Space)
    ensures var references, restored := Normalize(OrEmpty(c.loaded), space), Restored(c, space);
            && multiset(restored) == multiset(references)
            && (forall r :: r in restored <==> r in references)
            && var d := Reference(c.defaultModel, space);
               (d.Some? && d.value in references ==>
                 && |restored| > 0 && restored[0] == d.value
                 && restored[1..] == Without(references, d.value))
    ensures var references, d := Normalize(OrEmpty(c.loaded), space), Reference(c.defaultModel, space);
            d.None? || d.value !in references ==> Restored(c, space) == references
  {
    hide Normalize, Reference, IndexOf, Without;
    var references := Normalize(OrEmpty(c.loaded), space);
    NormalizeGivesNormalForm(OrEmpty(c.loaded), space);
    var d := Reference(c.defaultModel, space);
    if d.Some? {
      var index := IndexOf(references, d.value);
      if index < |references| {
        RestoredIsMoved(c, index, space);
        MovedToFront(references, index);
      }
    }
  }

  lemma RestoredIsMoved(c: Config, index: nat, space: Space)
    requires Reference(c.defaultModel, space).Some?
    requires index == IndexOf(Normalize(OrEmpty(c.loaded), space), Reference(c.defaultModel, space).value)
    requires index < |Normalize(OrEmpty(c.loaded), space)|
    ensures var references := Normalize(OrEmpty(c.loaded), space);
            Restored(c, space) == [references[index]] + (references[..index] + references[index + 1..])
  {
    hide Normalize, Reference, IndexOf;
    SplitAround(Normalize(OrEmpty(c.loaded), space), index);
  }

  /** `filter { $0 != r }`. */
  function Without<T(==,!new)>(s: seq<T>, r: T): (t: seq<T>)
    ensures forall x :: x in t <==> x in s && x != r
  {
    if |s| == 0 then []
    else
      var rest := Without(s[1..], r);
      assert forall x :: x in s <==> x == s[0] || x in s[1..];
      if s[0] == r then rest else [s[0]] + rest
  }

  lemma {:induction false} WithoutAppend<T(!new)>(a: seq<T>, b: seq<T>, r: T)
    ensures Without(a + b, r) == Without(a, r) + Without(b, r)
  {
    if |a| == 0 {
      assert a + b == b;
    } else {
      assert (a + b)[1..] == a[1..] + b;
      WithoutAppend(a[1..], b, r);
    }
  }

  lemma WithoutMiddle<T(!new)>(front: seq<T>, r: T, back: seq<T>)
    requires r !in front && r !in back
    ensures Without(front + [r] + back, r) == front + back
  {
    hide Without;
    WithoutAppend(front + [r], back, r);
    WithoutAppend(front, [r], r);
    WithoutAbsent(front, r);
    WithoutAbsent(back, r);
    WithoutItself(r);
    assert front + [] == front;
  }

  lemma WithoutItself<T(!new)>(r: T)
    ensures Without([r], r) == []
  {
  }

  lemma {:induction false} WithoutAbsent<T(!new)>(s: seq<T>, r: T)
    requires r !in s
    ensures Without(s, r) == s
  {
    if |s| > 0 {
      assert s == [s[0]] + s[1..];
      WithoutAbsent(s[1..], r);
    }
  }

  /** `filter { allowed.contains($0) }`. */
  function Within(s: seq<string>, allowed: seq<string>): (t: seq<string>)
    ensures forall x :: x in t <==> x in s && x in allowed
  {
    if |s| == 0 then []
    else
      var rest := Within(s[1..], allowed);
      assert forall x :: x in s <==> x == s[0] || x in s[1..];
      if s[0] in allowed then [s[0]] + rest else rest
  }

  /** The entries of t stand in the order in which they stand in s. */
  ghost predicate KeepsOrder(s: seq<string>, t: seq<string>) {
    forall i, j :: 0 <= i < j < |t| ==> IndexOf(s, t[i]) < IndexOf(s, t[j])
  }

  lemma IndexStep(s: seq<string>, r: string)
    requires |s| > 0
    ensures IndexOf(s, r) == if s[0] == r then 0 else 1 + IndexOf(s[1..], r)
  {
  }

  lemma {:induction false} FiltersKeepOrder(s: seq<string>, r: string, allowed: seq<string>)
    requires Distinct(s)
    ensures KeepsOrder(s, Without(s, r)) && KeepsOrder(s, Within(s, allowed))
  {
    hide IndexOf;
    if |s| > 0 {
      var rest := s[1..];
      assert Distinct(rest) && s[0] !in rest;
      FiltersKeepOrder(rest, r, allowed);
      FrontOrder(s, Without(rest, r));
      FrontOrder(s, Within(rest, allowed));
    }
  }

  /** What keeps the order of the tail keeps that of the list, with or without its first entry. */
  lemma FrontOrder(s: seq<string>, t: seq<string>)
    requires |s| > 0 && s[0] !in s[1..] && KeepsOrder(s[1..], t) && forall x :: x in t ==> x in s[1..]
    ensures KeepsOrder(s, t) && KeepsOrder(s, [s[0]] + t)
  {
    hide IndexOf;
    forall x | x in t ensures x != s[0] && IndexOf(s, x) == 1 + IndexOf(s[1..], x) { IndexStep(s, x); }
    IndexStep(s, s[0]);
    var longer := [s[0]] + t;
    forall i, j | 0 <= i < j < |longer| ensures IndexOf(s, longer[i]) < IndexOf(s, longer[j]) {
      assert longer[j] == t[j - 1] && t[j - 1] in t;
      if i > 0 { assert longer[i] == t[i - 1] && t[i - 1] in t; }
    }
  }

  lemma {:induction false} FiltersKeepNormalForm(s: seq<string>, r: string, allowed: seq<string>, space: Space)
    requires NormalForm(s, space)
    ensures NormalForm(Without(s, r), space) && NormalForm(Within(s, allowed), space)
  {
    if |s| > 0 {
      var rest := s[1..];
      assert NormalForm(rest, space);
      FiltersKeepNormalForm(rest, r, allowed, space);
      assert s[0] !in rest;
    }
  }

  lemma AppendKeepsNormalForm(s: seq<string>, r: string, space: Space)
    requires NormalForm(s, space) && Clean(r, space) && r !in s
    ensures NormalForm(s + [r], space)
  {
  }

  // ---- The mutators --------------------------------------------------------------

  datatype Change =
    | RecordLoaded(model: string, setDefault: bool)
    | RecordUnloaded(model: string)
    | ReplaceLoaded(models: seq<string>, newDefault: Option<string>)
    | ReplacePinned(models: seq<string>)
    | RecordPinned(model: string, pin: bool)

  function AddMissing(s: seq<string>, r: string): seq<string> {
    if r in s then s else s + [r]
  }

  /** The configuration after one change. */
  function Changed(c: Config, change: Change, space: Space): Config {
    var loaded, pinned := Normalize(OrEmpty(c.loaded), space), Normalize(OrEmpty(c.pinned), space);
    match change
    case RecordLoaded(model, setDefault) =>
      var r := Reference(Some(model), space);
      if r.None? then c
      else Config(if setDefault then r else c.defaultModel, Some(AddMissing(loaded, r.value)), c.pinned)
    case RecordUnloaded(model) =>
      var r := Reference(Some(model), space);
      if r.None? then c
      else
        var left := Without(loaded, r.value);
        Config(c.defaultModel, Some(left), Some(Within(Without(pinned, r.value), left)))
    case ReplaceLoaded(models, newDefault) =>
      var references := Normalize(models, space);
      var given, existing := Reference(newDefault, space), Reference(c.defaultModel, space);
      Config(if given.Some? then given
             else if existing.Some? then existing
             else if |references| > 0 then Some(references[0]) else None,
             Some(references), Some(Within(pinned, references)))
    case ReplacePinned(models) =>
      c.(pinned := Some(Within(Normalize(models, space), Restored(c, space))))
    case RecordPinned(model, pin) =>
      var r := Reference(Some(model), space);
      if r.None? then c
      else if !pin then c.(pinned := Some(Without(pinned, r.value)))
      else if r.value !in Restored(c, space) then c
      else c.(pinned := Some(AddMissing(pinned, r.value)))
  }

  class AppConfig {
    const space: Space
    var defaultModel: Option<string>
    var loadedModels: Option<seq<string>>
    var pinnedModels: Option<seq<string>>

    constructor (space: Space)
      ensures Value() == Config(None, None, None) && this.space == space
    {
      this.space, defaultModel, loadedModels, pinnedModels := space, None, None, None;
    }

    function Value(): Config
      reads this
    {
      Config(defaultModel, loadedModels, pinnedModels)
    }

    method RecordLoadedModel(model: string, setDefault: bool)
      modifies this
      ensures Value() == Changed(old(Value()), RecordLoaded(model, setDefault), space)
    {
      var r := Reference(Some(model), space);
      if r.None? { return; }
      var references := NormalizeList(OrEmpty(loadedModels), space);
      if r.value !in references {
        references := references + [r.value];
      }
      loadedModels := Some(references);
      if setDefault { defaultModel := r; }
    }

    method RecordUnloadedModel(model: string)
      modifies this
      ensures Value() == Changed(old(Value()), RecordUnloaded(model), space)
    {
      var r := Reference(Some(model), space);
      if r.None? { return; }
      var references := NormalizeList(OrEmpty(loadedModels), space);
      references := Without(references, r.value);
      loadedModels := Some(references);
      var pinned := NormalizeList(OrEmpty(pinnedModels), space);
      pinnedModels := Some(Within(Without(pinned, r.value), references));
    }

    method ReplaceLoadedModels(models: seq<string>, newDefault: Option<string>)
      modifies this
      ensures Value() == Changed(old(Value()), ReplaceLoaded(models, newDefault), space)
    {
      var references := NormalizeList(models, space);
      loadedModels := Some(references);
      var pinned := NormalizeList(OrEmpty(pinnedModels), space);
      pinnedModels := Some(Within(pinned, references));
      var given := Reference(newDefault, space);
      if given.Some? {
        defaultModel := given;
      } else {
        var existing := Reference(defaultModel, space);
        if existing.Some? {
          defaultModel := existing;
        } else {
          defaultModel := if |references| > 0 then Some(references[0]) else None;
        }
      }
    }

    method ReplacePinnedModels(models: seq<string>)
      modifies this
      ensures Value() == Changed(old(Value()), ReplacePinned(models), space)
    {
      var references := NormalizeList(models, space);
      pinnedModels := Some(Within(references, Restored(Value(), space)));
    }

    method RecordPinnedModel(model: string, pin: bool)
      modifies this
      ensures Value() == Changed(old(Value()), RecordPinned(model, pin), space)
    {
      var r := Reference(Some(model), space);
      if r.None? { return; }
      var references := NormalizeList(OrEmpty(pinnedModels), space);
      if pin {
        if r.value !in Restored(Value(), space) { return; }
        if r.value !in references {
          references := references + [r.value];
        }
      } else {
        references := Without(references, r.value);
      }
      pinnedModels := Some(references);
    }
  }

  // ---- What every history keeps --------------------------------------------------

  /** Both lists are in normal form, and everything pinned is loaded. */
  ghost predicate Consistent(c: Config, space: Space) {
    && NormalForm(OrEmpty(c.loaded), space) && NormalForm(OrEmpty(c.pinned), space)
    && (forall r :: r in OrEmpty(c.pinned) ==> r in OrEmpty(c.loaded))
  }

  /** The list checks of `validate`. */
  predicate ListsValid(c: Config, space: Space) {
    && (c.loaded.Some? ==> c.loaded.value == Normalize(c.loaded.value, space))
    && (c.pinned.Some? ==> c.pinned.value == Normalize(c.pinned.value, space))
    && (c.pinned.Some? && c.loaded.Some? ==> forall r :: r in c.pinned.value ==> r in c.loaded.value)
  }

  lemma ChangeKeepsConsistent(c: Config, change: Change, space: Space)
    requires Consistent(c, space)
    ensures Consistent(Changed(c, change, space), space)
  {
    hide Normalize, Reference, Restored, NormalForm, Clean, Without, Within;
    var loaded, pinned := OrEmpty(c.loaded), OrEmpty(c.pinned);
    NormalFormIsFixed(loaded, space);
    NormalFormIsFixed(pinned, space);
    match change
    case RecordLoaded(model, setDefault) =>
      AddedIsNormal(loaded, model, space);
    case RecordUnloaded(model) =>
      var r := Reference(Some(model), space);
      if r.Some? {
        FiltersKeepNormalForm(loaded, r.value, [], space);
        FiltersKeepNormalForm(pinned, r.value, [], space);
        FiltersKeepNormalForm(Without(pinned, r.value), "", Without(loaded, r.value), space);
      }
    case ReplaceLoaded(models, newDefault) =>
      NormalizeGivesNormalForm(models, space);
      FiltersKeepNormalForm(pinned, "", Normalize(models, space), space);
    case ReplacePinned(models) =>
      NormalizeGivesNormalForm(models, space);
      FiltersKeepNormalForm(Normalize(models, space), "", Restored(c, space), space);
      RestoredIsPermutation(c, space);
    case RecordPinned(model, pin) =>
      var r := Reference(Some(model), space);
      RestoredIsPermutation(c, space);
      AddedIsNormal(pinned, model, space);
      if r.Some? { FiltersKeepNormalForm(pinned, r.value, [], space); }
  }

  /** Which models each change loads, unloads, pins and unpins. */
  lemma ChangeEffects(c: Config, change: Change, space: Space)
    requires Consistent(c, space)
    ensures var c' := Changed(c, change, space);
            var loaded, pinned := OrEmpty(c.loaded), OrEmpty(c.pinned);
            var loaded', pinned' := OrEmpty(c'.loaded), OrEmpty(c'.pinned);
            match change
            case RecordLoaded(model, setDefault) =>
              var r := Reference(Some(model), space);
              && (forall x :: x in loaded' <==> x in loaded || r == Some(x)) && pinned' == pinned && loaded <= loaded'
              && c'.defaultModel == if setDefault && r.Some? then r else c.defaultModel
            case RecordUnloaded(model) =>
              var r := Reference(Some(model), space);
              && (forall x :: x in loaded' <==> x in loaded && r != Some(x))
              && (forall x :: x in pinned' <==> x in pinned && r != Some(x)) && c'.defaultModel == c.defaultModel
            case ReplaceLoaded(models, newDefault) =>
              && (forall x :: x in loaded' <==> FirstFor(models, x, space) < |models|)
              && (forall x :: x in pinned' <==> x in pinned && x in loaded')
              && var given, existing := Reference(newDefault, space), Reference(c.defaultModel, space);
                 && (given.Some? ==> c'.defaultModel == given)
                 && (given.None? && existing.Some? ==> c'.defaultModel == existing)
                 && (given.None? && existing.None? ==>
                       c'.defaultModel == if |loaded'| > 0 then Some(loaded'[0]) else None)
            case ReplacePinned(models) =>
              && loaded' == loaded && c'.defaultModel == c.defaultModel
              && (forall x :: x in pinned' <==> FirstFor(models, x, space) < |models| && x in loaded)
            case RecordPinned(model, pin) =>
              var r := Reference(Some(model), space);
              && loaded' == loaded && c'.defaultModel == c.defaultModel
              && (forall x :: x in pinned' <==> if r == Some(x) then pin && x in loaded else x in pinned)
  {
    hide Normalize, Reference, Restored, NormalForm, Clean, Without, Within;
    NormalFormIsFixed(OrEmpty(c.loaded), space);
    NormalFormIsFixed(OrEmpty(c.pinned), space);
    RestoredIsPermutation(c, space);
    match change
    case ReplaceLoaded(models, newDefault) => NormalizeKeepsOrder(models, space);
    case ReplacePinned(models) => NormalizeKeepsOrder(models, space);
    case _ =>
  }

  /** Every change leaves the models it does not touch in their order; a new one comes last; replaced lists follow
      the order in which their models were given; a blank reference changes nothing at all. */
  lemma ChangeKeepsOrder(c: Config, change: Change, space: Space)
    requires Consistent(c, space)
    ensures var c' := Changed(c, change, space);
            var loaded, pinned := OrEmpty(c.loaded), OrEmpty(c.pinned);
            var loaded', pinned' := OrEmpty(c'.loaded), OrEmpty(c'.pinned);
            match change
            case RecordLoaded(model, setDefault) =>
              loaded <= loaded' && (Reference(Some(model), space).None? ==> c' == c)
            case RecordUnloaded(model) =>
              && KeepsOrder(loaded, loaded') && KeepsOrder(pinned, pinned')
              && (Reference(Some(model), space).None? ==> c' == c)
            case ReplaceLoaded(models, newDefault) =>
              ByFirstOccurrence(models, loaded', space) && KeepsOrder(pinned, pinned')
            case ReplacePinned(models) => ByFirstOccurrence(models, pinned', space)
            case RecordPinned(model, pin) =>
              && (if pin then pinned <= pinned' else KeepsOrder(pinned, pinned'))
              && (Reference(Some(model), space).None? ==> c' == c)
  {
    hide Normalize, Reference, Restored, Clean, Without, Within, KeepsOrder, ByFirstOccurrence, Distinct;
    var loaded, pinned := OrEmpty(c.loaded), OrEmpty(c.pinned);
    NormalFormIsFixed(loaded, space);
    NormalFormIsFixed(pinned, space);
    OwnOrder(loaded);
    OwnOrder(pinned);
    match change
    case RecordLoaded(model, setDefault) =>
    case RecordUnloaded(model) =>
      var r := Reference(Some(model), space);
      if r.Some? {
        FiltersKeepOrder(loaded, r.value, []);
        FiltersKeepOrder(pinned, r.value, []);
        FiltersKeepNormalForm(pinned, r.value, [], space);
        var rest, left := Without(pinned, r.value), Without(loaded, r.value);
        FiltersKeepOrder(rest, "", left);
        OrderThrough(pinned, rest, Within(rest, left));
      }
    case ReplaceLoaded(models, newDefault) =>
      NormalizeKeepsOrder(models, space);
      FiltersKeepOrder(pinned, "", Normalize(models, space));
    case ReplacePinned(models) =>
      var n := Normalize(models, space);
      NormalizeKeepsOrder(models, space);
      NormalizeGivesNormalForm(models, space);
      FiltersKeepOrder(n, "", Restored(c, space));
      GivenOrderThrough(models, n, Within(n, Restored(c, space)), space);
    case RecordPinned(model, pin) =>
      var r := Reference(Some(model), space);
      if r.Some? { FiltersKeepOrder(pinned, r.value, []); }
  }

  lemma {:induction false} OwnOrder(s: seq<string>)
    requires Distinct(s)
    ensures KeepsOrder(s, s)
  {
    if |s| > 0 {
      assert s == [s[0]] + s[1..];
      OwnOrder(s[1..]);
      FrontOrder(s, s[1..]);
    }
  }

  lemma OrderThrough(s: seq<string>, t: seq<string>, u: seq<string>)
    requires KeepsOrder(s, t) && KeepsOrder(t, u) && forall x :: x in u ==> x in t
    ensures KeepsOrder(s, u)
  {
    hide IndexOf;
    forall i, j | 0 <= i < j < |u| ensures IndexOf(s, u[i]) < IndexOf(s, u[j]) {
      assert u[i] in t && u[j] in t;
      assert t[IndexOf(t, u[i])] == u[i] && t[IndexOf(t, u[j])] == u[j];
    }
  }

  lemma GivenOrderThrough(values: seq<string>, t: seq<string>, u: seq<string>, space: Space)
    requires ByFirstOccurrence(values, t, space) && KeepsOrder(t, u) && forall x :: x in u ==> x in t
    ensures ByFirstOccurrence(values, u, space)
  {
    hide IndexOf, FirstFor;
    forall i, j | 0 <= i < j < |u| ensures FirstFor(values, u[i], space) < FirstFor(values, u[j], space) {
      assert u[i] in t && u[j] in t;
      assert t[IndexOf(t, u[i])] == u[i] && t[IndexOf(t, u[j])] == u[j];
    }
  }

  lemma AddedIsNormal(s: seq<string>, model: string, space: Space)
    requires NormalForm(s, space)
    ensures Reference(Some(model), space).Some? ==>
              NormalForm(AddMissing(s, Reference(Some(model), space).value), space)
  {
    hide NormalForm, Clean, Reference;
    var r := Reference(Some(model), space);
    if r.Some? && r.value !in s {
      ReferenceIsClean(Some(model), space);
      AppendKeepsNormalForm(s, r.value, space);
    }
  }

  function After(c: Config, history: seq<Change>, space: Space): Config
    decreases |history|
  {
    if |history| == 0 then c else Changed(After(c, history[..|history| - 1], space), history[|history| - 1], space)
  }

  /** Consistency is what validation checks, plus: nothing is pinned while there is no loaded list. */
  lemma ConsistentIffValid(c: Config, space: Space)
    ensures Consistent(c, space) <==> ListsValid(c, space) && (c.loaded.Some? || OrEmpty(c.pinned) == [])
  {
    hide NormalForm, Normalize;
    EmptyIsNormal(space);
    FixedIffNormalForm(OrEmpty(c.loaded), space);
    FixedIffNormalForm(OrEmpty(c.pinned), space);
    if c.pinned.Some? && |c.pinned.value| > 0 { assert c.pinned.value[0] in c.pinned.value; }
  }

  lemma EmptyIsNormal(space: Space)
    ensures NormalForm([], space)
  {
  }

  lemma {:induction false} HistoryKeepsConsistent(c: Config, history: seq<Change>, space: Space)
    requires Consistent(c, space)
    ensures Consistent(After(c, history, space), space)
    decreases |history|
  {
    hide Changed, Consistent;
    if |history| > 0 {
      HistoryKeepsConsistent(c, history[..|history| - 1], space);
      ChangeKeepsConsistent(After(c, history[..|history| - 1], space), history[|history| - 1], space);
    }
  }

  /** From the default configuration, every history of changes leaves lists that validate. */
  lemma HistoriesStayValid(history: seq<Change>, space: Space)
    ensures ListsValid(After(Config(None, None, None), history, space), space)
  {
    hide After, Normalize, NormalForm;
    EmptyIsNormal(space);
    HistoryKeepsConsistent(Config(None, None, None), history, space);
    ConsistentIffValid(After(Config(None, None, None), history, space), space);
  }

  lemma {:induction false} ConcatCovers(parts: seq<string>, i: nat)
    requires i < |parts|
    ensures |parts[i]| <= |Concat(parts)| && parts[0] <= Concat(parts)
  {
    var front := parts[..|parts| - 1];
    if |front| > 0 {
      ConcatCovers(front, if i < |front| then i else 0);
    } else {
      assert Concat(front) == [];
    }
  }

  /** A reference that is not in the list: longer than every entry. */
  lemma Unlisted(list: seq<string>, space: Space) returns (r: string)
    requires NormalForm(list, space) && |list| > 0
    ensures Clean(r, space) && r !in list
  {
    hide Concat;
    ConcatCovers(list, 0);
    r := Concat(list) + list[0];
    if r in list {
      var i :| 0 <= i < |list| && list[i] == r;
      ConcatCovers(list, i);
      assert false;
    }
  }

  /** From an arbitrary configuration that validates this holds exactly when it has a loaded list or pins nothing:
      otherwise loading any model that is not pinned makes the lists invalid. */
  lemma ValidForeverIff(c: Config, space: Space)
    requires ListsValid(c, space)
    ensures (forall history :: ListsValid(After(c, history, space), space))
       <==> (c.loaded.Some? || OrEmpty(c.pinned) == [])
  {
    hide Normalize, NormalForm, Changed, Clean;
    if c.loaded.Some? || OrEmpty(c.pinned) == [] {
      ConsistentIffValid(c, space);
      forall history ensures ListsValid(After(c, history, space), space) {
        HistoryKeepsConsistent(c, history, space);
        ConsistentIffValid(After(c, history, space), space);
      }
    } else {
      FixedIffNormalForm(c.pinned.value, space);
      var unpinned := Unlisted(c.pinned.value, space);
      LoadingBreaks(c, unpinned, space);
    }
  }

  /** With pins but no loaded list, loading a model that is not pinned ends validity. */
  lemma LoadingBreaks(c: Config, model: string, space: Space)
    requires c.loaded.None? && OrEmpty(c.pinned) != [] && Clean(model, space) && model !in OrEmpty(c.pinned)
    ensures !ListsValid(After(c, [RecordLoaded(model, false)], space), space)
  {
    hide Normalize, Changed, Clean;
    var load := RecordLoaded(model, false);
    FirstLoad(c, model, space);
    assert [load][..0] == [];
    assert After(c, [load], space) == Changed(c, load, space);
    assert c.pinned.value[0] in c.pinned.value;
  }

  /** Such a configuration: "a" is pinned, nothing was ever loaded, and then "b" is. */
  lemma PinnedWithoutLoadedList(space: Space)
    requires !space('a') && !space('b')
    ensures var c := Config(None, None, Some(["a"]));
            ListsValid(c, space) && !ListsValid(After(c, [RecordLoaded("b", false)], space), space)
  {
    hide Normalize;
    FixedIffNormalForm(["a"], space);
    LoadingBreaks(Config(None, None, Some(["a"])), "b", space);
  }

  lemma FirstLoad(c: Config, model: string, space: Space)
    requires c.loaded.None? && Clean(model, space)
    ensures Changed(c, RecordLoaded(model, false), space) == c.(loaded := Some([model]))
  {
    hide Clean;
    CleanIsReference(model, space);
    assert Normalize([], space) == [];
    assert AddMissing([], model) == [model];
  }
}
