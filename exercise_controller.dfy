/** The rule registry of the exercise editor
    (widgets/exercisor/exercise_controller.py). Every exercise has a rules
    dictionary keyed by theta index; adding a rule stores it, replaces the
    exercise by the rule-applied copy and keeps the column's previous values
    so that deleting the rule can write them back. */
module ExerciseControl {
  import opened Common
  import opened ProcessThetas

  /** The window the controller smooths every exercise with. */
  const SmoothWindow: int := 10

  /** The `angles` argument of add_rule: one angle for a "fixed" rule, the
      list [low, high] for a "range" rule. */
  datatype Angles = Scalar(deg: real) | Pair(low: real, high: real)

  /** The `(type, angles)` tuple stored in a rules dictionary. */
  datatype Rule = Rule(kind: string, angles: Angles)

  /** The contents of a RulesDict: the dictionary and its unsaved_rules list. */
  datatype RuleBook = RuleBook(entries: map<int, Rule>, unsaved: seq<int>)

  /** RulesDict.__setitem__: the key is appended every time, then stored. */
  function BookSet(b: RuleBook, key: int, rule: Rule): RuleBook
  {
    RuleBook(b.entries[key := rule], b.unsaved + [key])
  }

  /** RulesDict.pop: unsaved_rules.remove(key) first, then dict.pop with a
      default, which never fails. */
  function BookPop(b: RuleBook, key: int): Result<RuleBook>
  {
    match RemoveFirst(b.unsaved, key)
    case Err(e) => Err(e)
    case Ok(rest) => Ok(RuleBook(b.entries - {key}, rest))
  }

  /** Assigning a key stores the rule and adds one more occurrence of the key
      to unsaved_rules, duplicates included. */
  lemma BookSetSpec(b: RuleBook, key: int, rule: Rule)
    ensures BookSet(b, key, rule).entries[key] == rule
    ensures forall k :: k in b.entries && k != key ==> BookSet(b, key, rule).entries[k] == b.entries[k]
    ensures multiset(BookSet(b, key, rule).unsaved) == multiset(b.unsaved) + multiset{key}
  {
  }

  /** pop fails with ValueError exactly when the key was never assigned (or
      already popped as often as assigned), whether or not a rule is stored;
      otherwise the rule is gone and one occurrence of the key is dropped. */
  lemma BookPopSpec(b: RuleBook, key: int)
    ensures BookPop(b, key) == Err(ValueError) <==> key !in b.unsaved
    ensures BookPop(b, key).Ok? ==>
      key !in BookPop(b, key).value.entries &&
      multiset(BookPop(b, key).value.unsaved) == multiset(b.unsaved) - multiset{key}
  {
    RemoveFirstSpec(b.unsaved, key);
  }

  /** Popping a freshly assigned key always succeeds, and removes the rule. */
  lemma SetThenPop(b: RuleBook, key: int, rule: Rule)
    ensures BookPop(BookSet(b, key, rule), key).Ok?
    ensures BookPop(BookSet(b, key, rule), key).value.entries == b.entries - {key}
    ensures key !in b.unsaved ==> BookPop(BookSet(b, key, rule), key).value.unsaved == b.unsaved
  {
    BookPopSpec(BookSet(b, key, rule), key);
    var s := b.unsaved + [key];
    assert s[|b.unsaved|] == key;
    assert BookSet(b, key, rule).entries - {key} == b.entries - {key};
    if key !in b.unsaved {
      var k :| IndexOf(s, key) == Some(k);
      assert k == |b.unsaved|;
      assert s[..k] + s[k + 1..] == b.unsaved;
    }
  }

  // ---------------------------------------------------------------------------
  // The rule dispatch of _apply_rule and what undoing it gives back
  // ---------------------------------------------------------------------------

  /** apply_fixed_rule or apply_range_rule chosen by the rule's type: a "fixed"
      rule needs a single angle and a "range" rule a pair, otherwise the
      arithmetic raises TypeError; any other type leaves the function unbound. */
  function RuleResult(m: Matrix, indx: int, rule: Rule): Result<Matrix>
    requires HasColumn(m, indx)
  {
    if rule.kind == "fixed" then
      (if rule.angles.Scalar? then Ok(FixedRule(m, indx, Radians(rule.angles.deg))) else Err(TypeError))
    else if rule.kind == "range" then
      (if rule.angles.Pair? then Ok(RangeRule(m, indx, Radians(rule.angles.low), Radians(rule.angles.high)))
       else Err(TypeError))
    else Err(UnboundLocalError)
  }

  /** Which rules apply: a "fixed" rule with one angle and a "range" rule with
      two. A rule of any other type raises UnboundLocalError whatever its
      angles, and a known type with the wrong angles raises TypeError. */
  lemma RuleResultErrors(m: Matrix, indx: int, rule: Rule)
    requires HasColumn(m, indx)
    ensures RuleResult(m, indx, rule).Ok? <==>
      (rule.kind == "fixed" && rule.angles.Scalar?) || (rule.kind == "range" && rule.angles.Pair?)
    ensures RuleResult(m, indx, rule) == Err(UnboundLocalError) <==> rule.kind != "fixed" && rule.kind != "range"
  {
  }

  /** An applied rule keeps the frames and their width and changes column
      indx alone. */
  lemma RuleResultShape(m: Matrix, indx: int, rule: Rule)
    requires HasColumn(m, indx)
    requires RuleResult(m, indx, rule).Ok?
    ensures var r := RuleResult(m, indx, rule).value;
      |r| == |m| &&
      (forall i :: 0 <= i < |m| ==> |r[i]| == |m[i]|) &&
      (forall i, j :: 0 <= i < |m| && 0 <= j < |m[i]| && j != indx ==> r[i][j] == m[i][j])
  {
    if rule.kind == "fixed" {
      FixedRuleSpec(m, indx, Radians(rule.angles.deg));
    } else {
      RangeRuleSpec(m, indx, Radians(rule.angles.low), Radians(rule.angles.high));
    }
  }

  /** The undo round trip of add_rule and delete_rule: writing back the column
      saved before a rule was applied gives the exercise back exactly. When a
      second rule is added on the same index, the saved column is the one the
      first rule left, so the delete gives back the exercise as the first rule
      left it (take m to be that exercise). */
  lemma RuleUndo(m: Matrix, indx: int, rule: Rule)
    requires HasColumn(m, indx)
    requires RuleResult(m, indx, rule).Ok?
    ensures SetColumn(RuleResult(m, indx, rule).value, indx, ColumnOf(m, indx)) == m
  {
    if rule.kind == "fixed" {
      FixedRuleUndo(m, indx, Radians(rule.angles.deg));
    } else {
      RangeRuleUndo(m, indx, Radians(rule.angles.low), Radians(rule.angles.high));
    }
  }

  // ---------------------------------------------------------------------------
  // The objects
  // ---------------------------------------------------------------------------

  /** RulesDict: a dictionary of rules that also records, in unsaved_rules,
      every key assigned and not yet popped. */
  class RulesDict {
    var entries: map<int, Rule>
    var unsavedRules: seq<int>

    constructor ()
      ensures entries == map[] && unsavedRules == []
    {
      entries := map[];
      unsavedRules := [];
    }

    function Book(): RuleBook
      reads this
    {
      RuleBook(entries, unsavedRules)
    }

    method SetItem(key: int, rule: Rule)
      modifies this
      ensures Book() == BookSet(old(Book()), key, rule)
    {
      unsavedRules := unsavedRules + [key];
      entries := entries[key := rule];
    }

    /** pop(key, None): returns nothing, and raises ValueError before touching
        the dictionary when the key is not in unsaved_rules. */
    method Pop(key: int) returns (r: Outcome)
      modifies this
      ensures BookPop(old(Book()), key).Ok? ==> r == Done && Book() == BookPop(old(Book()), key).value
      ensures BookPop(old(Book()), key).Err? ==>
        r == Raised(BookPop(old(Book()), key).error) && Book() == old(Book())
    {
      var removed := RemoveFirst(unsavedRules, key);
      match removed
      case Err(e) =>
        r := Raised(e);
      case Ok(rest) =>
        unsavedRules := rest;
        entries := entries - {key};
        r := Done;
    }
  }

  /** Every array of the map is a different object. */
  ghost predicate DistinctArrays(m: map<string, array2<real>>)
  {
    forall k1, k2 :: k1 in m && k2 in m && k1 != k2 ==> m[k1] != m[k2]
  }

  ghost predicate DistinctBooks(m: map<string, RulesDict>)
  {
    forall k1, k2 :: k1 in m && k2 in m && k1 != k2 ==> m[k1] != m[k2]
  }

  /** Exercises that are distinct arrays of 82 columns. */
  ghost predicate ArraysOk(m: map<string, array2<real>>)
  {
    DistinctArrays(m) && forall name :: name in m ==> m[name].Length1 == ThetaParams
  }

  /** Saved columns kept for the exercises of m: one undo dictionary per
      exercise, each saved column for a theta index and one value per frame. */
  predicate UndoOk(undo: map<string, map<int, seq<real>>>, m: map<string, array2<real>>)
  {
    undo.Keys == m.Keys &&
    forall name, i :: name in undo && i in undo[name] ==>
      0 <= i < ThetaParams && |undo[name][i]| == m[name].Length0
  }

  lemma UndoEmpty(undo: map<string, map<int, seq<real>>>, m: map<string, array2<real>>)
    requires undo.Keys == m.Keys && forall k :: k in undo ==> undo[k] == map[]
    ensures UndoOk(undo, m)
  {
  }

  lemma ArraysReplace(m: map<string, array2<real>>, name: string, a: array2<real>)
    requires ArraysOk(m) && name in m && a.Length1 == ThetaParams
    requires forall k :: k in m ==> m[k] != a
    ensures ArraysOk(m[name := a])
  {
  }

  lemma UndoSave(undo: map<string, map<int, seq<real>>>, m: map<string, array2<real>>,
                 name: string, a: array2<real>, indx: int, col: seq<real>)
    requires UndoOk(undo, m) && name in m && a.Length0 == m[name].Length0
    requires 0 <= indx < ThetaParams && |col| == a.Length0
    ensures UndoOk(undo[name := undo[name][indx := col]], m[name := a])
  {
  }

  lemma UndoForget(undo: map<string, map<int, seq<real>>>, m: map<string, array2<real>>, name: string, indx: int)
    requires UndoOk(undo, m) && name in m
    ensures UndoOk(undo[name := undo[name] - {indx}], m)
  {
  }

  /** An array nothing wrote to between two states holds the same rows. */
  twostate lemma RowsUnchanged(a: array2<real>)
    requires unchanged(a)
    ensures Rows(a) == old(Rows(a))
  {
  }

  /** _smooth_exercises: every array is smoothed in place with a window of
      ten frames and stored under its name in a new dictionary, which
      therefore holds the very same arrays as the one it was given. */
  method SmoothExercises(raw: map<string, array2<real>>) returns (exercises: map<string, array2<real>>)
    requires forall k :: k in raw ==> raw[k].Length1 == ThetaParams && raw[k].Length0 >= 2
    requires DistinctArrays(raw)
    modifies raw.Values
    ensures exercises == raw
    ensures forall k {:trigger Rows(raw[k])} :: k in raw ==> Rows(raw[k]) == Smooth(old(Rows(raw[k])), SmoothWindow)
  {
    var todo := raw.Keys;
    while todo != {}
      invariant todo <= raw.Keys
      invariant forall k {:trigger Rows(raw[k])} :: k in raw && k !in todo ==> Rows(raw[k]) == Smooth(old(Rows(raw[k])), SmoothWindow)
      invariant forall k {:trigger Rows(raw[k])} :: k in todo ==> Rows(raw[k]) == old(Rows(raw[k]))
      decreases |todo|
    {
      var name :| name in todo;
      SmoothThetas(raw[name], SmoothWindow);
      todo := todo - {name};
    }
    exercises := raw;
  }

  /** Every dictionary holds no rule and no unsaved key. */
  ghost predicate EmptyBooks(rules: map<string, RulesDict>)
    reads rules.Values
  {
    forall k :: k in rules ==> rules[k].entries == map[] && rules[k].unsavedRules == []
  }

  /** _init_rules: a fresh, empty RulesDict and an empty undo dictionary for
      every exercise name. */
  method InitRules(names: set<string>) returns (rules: map<string, RulesDict>, undo: map<string, map<int, seq<real>>>)
    ensures rules.Keys == names && undo.Keys == names
    ensures DistinctBooks(rules)
    ensures fresh(rules.Values) && EmptyBooks(rules)
    ensures forall k :: k in undo ==> undo[k] == map[]
  {
    rules, undo := map[], map[];
    var todo := names;
    while todo != {}
      invariant todo <= names
      invariant rules.Keys == names - todo && undo.Keys == names - todo
      invariant DistinctBooks(rules)
      invariant forall k :: k in rules ==> fresh(rules[k]) && rules[k].entries == map[] && rules[k].unsavedRules == []
      invariant forall k :: k in undo ==> undo[k] == map[]
      decreases |todo|
    {
      var name :| name in todo;
      var book := new RulesDict();
      rules := rules[name := book];
      undo := undo[name := map[]];
      todo := todo - {name};
    }
  }

  /** The rule dispatch of _apply_rule: the rule-applied copy and the
      column's previous values, or the error the dispatch raises. */
  method RuleApplied(thetas: array2<real>, indx: int, rule: Rule) returns (res: Result<array2<real>>, prev: seq<real>)
    requires 0 <= indx < thetas.Length1
    ensures res.Ok? ==> fresh(res.value) && res.value.Length0 == thetas.Length0 && res.value.Length1 == thetas.Length1
    ensures res.Ok? ==> RuleResult(Rows(thetas), indx, rule) == Ok(Rows(res.value)) && prev == ColumnOf(Rows(thetas), indx)
    ensures res.Err? ==> RuleResult(Rows(thetas), indx, rule) == Err(res.error)
  {
    prev := [];
    if rule.kind == "fixed" {
      if !rule.angles.Scalar? {
        return Err(TypeError), prev;
      }
      var a;
      a, prev := ApplyFixedRule(thetas, indx, rule.angles.deg);
      res := Ok(a);
    } else if rule.kind == "range" {
      if !rule.angles.Pair? {
        return Err(TypeError), prev;
      }
      var a;
      a, prev := ApplyRangeRule(thetas, indx, rule.angles.low, rule.angles.high);
      res := Ok(a);
    } else {
      res := Err(UnboundLocalError);
    }
  }

  /** The frame loop of _undo_rule: column indx takes the saved values back. */
  method WriteBackColumn(thetas: array2<real>, indx: int, previous: seq<real>)
    requires 0 <= indx < thetas.Length1 && |previous| == thetas.Length0
    modifies thetas
    ensures Rows(thetas) == SetColumn(old(Rows(thetas)), indx, previous)
  {
    ghost var m := Rows(thetas);
    for f := 0 to thetas.Length0
      invariant forall p, q :: 0 <= p < thetas.Length0 && 0 <= q < thetas.Length1 ==>
        thetas[p, q] == (if p < f && q == indx then previous[p] else m[p][q])
    {
      thetas[f, indx] := previous[f];
    }
    SameMatrix(Rows(thetas), SetColumn(m, indx, previous), thetas.Length1);
  }

  /** The work of the constructor: _smooth_exercises, then _init_rules. */
  method LoadExercises(raw: map<string, array2<real>>)
    returns (exercises: map<string, array2<real>>, rules: map<string, RulesDict>, undo: map<string, map<int, seq<real>>>)
    requires forall k :: k in raw ==> raw[k].Length1 == ThetaParams && raw[k].Length0 >= 2
    requires DistinctArrays(raw)
    modifies raw.Values
    ensures exercises == raw && ArraysOk(exercises)
    ensures forall k {:trigger Rows(raw[k])} :: k in raw ==> Rows(raw[k]) == Smooth(old(Rows(raw[k])), SmoothWindow)
    ensures rules.Keys == raw.Keys && DistinctBooks(rules) && fresh(rules.Values) && EmptyBooks(rules)
    ensures undo.Keys == raw.Keys && (forall k :: k in undo ==> undo[k] == map[]) && UndoOk(undo, exercises)
  {
    exercises := SmoothExercises(raw);
    label smoothedState:
    rules, undo := InitRules(raw.Keys);
    forall k | k in raw
      ensures Rows(raw[k]) == old@smoothedState(Rows(raw[k]))
    {
      RowsUnchanged@smoothedState(raw[k]);
    }
    UndoEmpty(undo, raw);
  }

  class ExerciseController {
    var exercises: map<string, array2<real>>
    var rules: map<string, RulesDict>
    var undoEdit: map<string, map<int, seq<real>>>
    var currentExercise: Option<string>
    /** How many times notify has run. */
    var notifications: nat

    /** The three dictionaries share their exercise names, no two names share
        an array or a rules dictionary, every exercise has 82 columns and
        every saved column one value per frame. */
    ghost predicate Valid()
      reads this
    {
      rules.Keys == exercises.Keys && DistinctBooks(rules) &&
      ArraysOk(exercises) && UndoOk(undoEdit, exercises)
    }

    /** The selected exercise, when there is one with a rules dictionary. */
    predicate HasCurrent()
      reads this
    {
      currentExercise.Some? && currentExercise.value in rules
    }

    /** The effect of _apply_rule on exercise `name`, given its contents m
        before: on an error nothing changes; otherwise the exercise is a new
        array holding the rule-applied matrix and the column's previous
        values are saved under indx. */
    twostate predicate AppliedRule(name: string, m: Matrix, indx: int, rule: Rule, r: Outcome)
      requires HasColumn(m, indx)
      reads this, exercises.Values
    {
      match RuleResult(m, indx, rule)
      case Err(e) =>
        r == Raised(e) && exercises == old(exercises) && undoEdit == old(undoEdit)
      case Ok(edited) =>
        r == Done && name in exercises && fresh(exercises[name]) && Rows(exercises[name]) == edited &&
        exercises == old(exercises)[name := exercises[name]] &&
        name in old(undoEdit) &&
        undoEdit == old(undoEdit)[name := old(undoEdit)[name][indx := ColumnOf(m, indx)]]
    }

    /** The effect of _undo_rule on exercise `name`, given its contents m
        before: KeyError and nothing changes when no column is saved for
        indx; otherwise the saved column is written back and forgotten. */
    twostate predicate UndoneRule(name: string, m: Matrix, indx: int, r: Outcome)
      requires name in old(undoEdit) && name in exercises && IsMatrix(m, ThetaParams)
      requires indx in old(undoEdit)[name] ==> 0 <= indx < ThetaParams && |old(undoEdit)[name][indx]| == |m|
      reads this, exercises.Values
    {
      if indx !in old(undoEdit)[name] then
        r == Raised(KeyError) && undoEdit == old(undoEdit) && Rows(exercises[name]) == m
      else
        r == Done && undoEdit == old(undoEdit)[name := old(undoEdit)[name] - {indx}] &&
        Rows(exercises[name]) == SetColumn(m, indx, old(undoEdit)[name][indx])
    }

    /** Loads nothing itself: the exercises read from disk are smoothed in
        place, which notifies once through the exercises setter, and every
        exercise gets an empty rules dictionary and undo dictionary. */
    constructor (raw: map<string, array2<real>>)
      requires forall k :: k in raw ==> raw[k].Length1 == ThetaParams && raw[k].Length0 >= 2
      requires DistinctArrays(raw)
      modifies raw.Values
      ensures Valid()
      ensures exercises == raw
      ensures forall k {:trigger Rows(raw[k])} :: k in raw ==> Rows(raw[k]) == Smooth(old(Rows(raw[k])), SmoothWindow)
      ensures rules.Keys == raw.Keys
      ensures fresh(rules.Values) && EmptyBooks(rules)
      ensures undoEdit.Keys == raw.Keys && forall k :: k in undoEdit ==> undoEdit[k] == map[]
      ensures currentExercise == None && notifications == 1
    {
      var smoothed, rs, undo := LoadExercises(raw);
      exercises, notifications, rules, undoEdit, currentExercise := smoothed, 1, rs, undo, None;
    }

    /** _apply_rule on the selected exercise. */
    method ApplyRule(thetaIndx: int, rule: Rule) returns (r: Outcome)
      requires Valid() && HasCurrent() && 0 <= thetaIndx < ThetaParams
      modifies this
      ensures Valid() && rules == old(rules) && currentExercise == old(currentExercise)
      ensures notifications == old(notifications)
      ensures AppliedRule(currentExercise.value, old(Rows(exercises[currentExercise.value])), thetaIndx, rule, r)
    {
      var name := currentExercise.value;
      var thetas := exercises[name];
      var res, prev := RuleApplied(thetas, thetaIndx, rule);
      if res.Err? {
        return Raised(res.error);
      }
      var edited := res.value;
      ArraysReplace(exercises, name, edited);
      UndoSave(undoEdit, exercises, name, edited, thetaIndx, prev);
      exercises := exercises[name := edited];
      undoEdit := undoEdit[name := undoEdit[name][thetaIndx := prev]];
      r := Done;
    }

    /** _undo_rule on the selected exercise: the saved column is popped and
        written back frame by frame into the exercise's own array; no other
        array changes. */
    method UndoRule(thetaIndx: int) returns (r: Outcome)
      requires Valid() && HasCurrent()
      modifies this, exercises[currentExercise.value]
      ensures Valid() && rules == old(rules) && currentExercise == old(currentExercise)
      ensures exercises == old(exercises) && notifications == old(notifications)
      ensures UndoneRule(currentExercise.value, old(Rows(exercises[currentExercise.value])), thetaIndx, r)
    {
      var name := currentExercise.value;
      if thetaIndx !in undoEdit[name] {
        return Raised(KeyError);
      }
      var previous := undoEdit[name][thetaIndx];
      UndoForget(undoEdit, exercises, name, thetaIndx);
      undoEdit := undoEdit[name := undoEdit[name] - {thetaIndx}];
      WriteBackColumn(exercises[name], thetaIndx, previous);
      r := Done;
    }

    /** add_rule: store the rule in the selected exercise's dictionary, apply
        it, notify. KeyError, with nothing changed, when no exercise with a
        dictionary is selected; a rule that fails to apply stays stored. */
    method AddRule(thetaIndx: int, rule: Rule) returns (r: Outcome)
      requires Valid() && 0 <= thetaIndx < ThetaParams
      modifies this, if HasCurrent() then {rules[currentExercise.value]} else {}
      ensures Valid() && rules == old(rules) && currentExercise == old(currentExercise)
      ensures !HasCurrent() ==>
        r == Raised(KeyError) && exercises == old(exercises) && undoEdit == old(undoEdit) &&
        notifications == old(notifications)
      ensures HasCurrent() ==>
        rules[currentExercise.value].Book() == BookSet(old(rules[currentExercise.value].Book()), thetaIndx, rule) &&
        AppliedRule(currentExercise.value, old(Rows(exercises[currentExercise.value])), thetaIndx, rule, r) &&
        notifications == old(notifications) + (if r == Done then 1 else 0)
    {
      if !HasCurrent() {
        return Raised(KeyError);
      }
      var name := currentExercise.value;
      rules[name].SetItem(thetaIndx, rule);
      r := ApplyRule(thetaIndx, rule);
      if r.Raised? {
        return;
      }
      notifications := notifications + 1;
    }

    /** delete_rule: pop the rule from the selected exercise's dictionary
        (ValueError, with nothing changed, when the index was never
        assigned), undo it, notify. */
    method DeleteRule(thetaIndx: int) returns (r: Outcome)
      requires Valid()
      modifies this, if HasCurrent() then {rules[currentExercise.value], exercises[currentExercise.value]} else {}
      ensures Valid() && rules == old(rules) && currentExercise == old(currentExercise)
      ensures exercises == old(exercises)
      ensures !HasCurrent() ==>
        r == Raised(KeyError) && undoEdit == old(undoEdit) && notifications == old(notifications)
      ensures HasCurrent() && BookPop(old(rules[currentExercise.value].Book()), thetaIndx).Err? ==>
        r == Raised(ValueError) && rules[currentExercise.value].Book() == old(rules[currentExercise.value].Book()) &&
        undoEdit == old(undoEdit) && notifications == old(notifications) &&
        Rows(exercises[currentExercise.value]) == old(Rows(exercises[currentExercise.value]))
      ensures HasCurrent() && BookPop(old(rules[currentExercise.value].Book()), thetaIndx).Ok? ==>
        rules[currentExercise.value].Book() == BookPop(old(rules[currentExercise.value].Book()), thetaIndx).value &&
        UndoneRule(currentExercise.value, old(Rows(exercises[currentExercise.value])), thetaIndx, r) &&
        notifications == old(notifications) + (if r == Done then 1 else 0)
    {
      if !HasCurrent() {
        return Raised(KeyError);
      }
      var name := currentExercise.value;
      BookPopSpec(rules[name].Book(), thetaIndx);
      r := rules[name].Pop(thetaIndx);
      if r.Raised? {
        return;
      }
      r := UndoRule(thetaIndx);
      if r.Raised? {
        return;
      }
      notifications := notifications + 1;
    }
  }
}
