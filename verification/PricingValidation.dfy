/**
 The two list validators of backend/app/schemas/quotations.py: the discount approval matrix and the component
 codes.
 */
module PricingValidation {
  import opened Wrappers
  import opened Sequences

  // -------------------------------------------------------------- approval matrix

  /** No maximum means no upper end. */
  datatype Level = Level(name: string, minimum: real, maximum: Option<real>)

  datatype Fault = MaximumBelowMinimum | LevelsOverlap

  predicate WellFormed(level: Level) {
    level.maximum.Some? ==> level.minimum <= level.maximum.value
  }

  /** Whether a discount of `percent` falls to this level; both ends belong to it. */
  predicate Matches(level: Level, percent: real) {
    level.minimum <= percent && (level.maximum.Some? ==> percent <= level.maximum.value)
  }

  ghost predicate Disjoint(a: Level, b: Level) {
    forall percent :: !(Matches(a, percent) && Matches(b, percent))
  }

  ghost predicate Apart(levels: seq<Level>) {
    forall i, j :: 0 <= i < j < |levels| ==> Disjoint(levels[i], levels[j])
  }

  predicate AllWellFormed(levels: seq<Level>) {
    forall i :: 0 <= i < |levels| ==> WellFormed(levels[i])
  }

  /** Behind every level whose minimum is not larger. */
  function Insert(levels: seq<Level>, level: Level): seq<Level> {
    if levels == [] || levels[|levels| - 1].minimum <= level.minimum then levels + [level]
    else Insert(levels[..|levels| - 1], level) + [levels[|levels| - 1]]
  }

  /** `sorted` by minimum, equal minima in their given order. */
  function Ordered(levels: seq<Level>): seq<Level> {
    if levels == [] then [] else Insert(Ordered(levels[..|levels| - 1]), levels[|levels| - 1])
  }

  predicate Ascending(levels: seq<Level>) {
    forall i, j :: 0 <= i < j < |levels| ==> levels[i].minimum <= levels[j].minimum
  }

  /** The fault found at position `i` of the ordered list, if any. */
  function FaultAt(ordered: seq<Level>, i: nat): Option<Fault>
    requires i < |ordered|
  {
    if !WellFormed(ordered[i]) then Some(MaximumBelowMinimum)
    else if i > 0 && (ordered[i - 1].maximum.None? || ordered[i].minimum <= ordered[i - 1].maximum.value)
    then Some(LevelsOverlap)
    else None
  }

  function FirstFault(ordered: seq<Level>, i: nat): Option<Fault>
    decreases |ordered| - i
  {
    if i >= |ordered| then None
    else if FaultAt(ordered, i).Some? then FaultAt(ordered, i)
    else FirstFault(ordered, i + 1)
  }

  /** `valid_matrix`. */
  method ValidMatrix(levels: seq<Level>) returns (fault: Option<Fault>)
    ensures fault == FirstFault(Ordered(levels), 0)
    ensures fault.None? <==> AllWellFormed(levels) && Apart(levels)
  {
    MatrixExactly(levels);
    var ordered := Ordered(levels);
    for index := 0 to |ordered|
      invariant FirstFault(ordered, 0) == FirstFault(ordered, index)
    {
      var level := ordered[index];
      if level.maximum.Some? && level.maximum.value < level.minimum {
        return Some(MaximumBelowMinimum);
      }
      if index > 0 {
        var previousMaximum := ordered[index - 1].maximum;
        if previousMaximum.None? || level.minimum <= previousMaximum.value {
          return Some(LevelsOverlap);
        }
      }
    }
    return None;
  }

  // The sorted list is the given one in another order.

  ghost predicate ApartFrom(levels: seq<Level>, level: Level) {
    forall i :: 0 <= i < |levels| ==> Disjoint(levels[i], level)
  }

  lemma ApartSnoc(levels: seq<Level>, level: Level)
    ensures Apart(levels + [level]) <==> Apart(levels) && ApartFrom(levels, level)
  {
    var more := levels + [level];
    if Apart(more) {
      forall i, j | 0 <= i < j < |levels| ensures Disjoint(levels[i], levels[j]) {
        assert Disjoint(more[i], more[j]);
      }
      forall i | 0 <= i < |levels| ensures Disjoint(levels[i], level) {
        assert Disjoint(more[i], more[|levels|]);
      }
    }
  }

  lemma DisjointSymmetric(a: Level, b: Level)
    ensures Disjoint(a, b) <==> Disjoint(b, a)
  {
  }

  lemma {:induction false} InsertApartFrom(levels: seq<Level>, level: Level, other: Level)
    ensures ApartFrom(Insert(levels, level), other) <==> ApartFrom(levels, other) && Disjoint(level, other)
    decreases |levels|
  {
    if levels == [] || levels[|levels| - 1].minimum <= level.minimum {
      ApartFromSnoc(levels, level, other);
    } else {
      var front, last := levels[..|levels| - 1], levels[|levels| - 1];
      InsertApartFrom(front, level, other);
      ApartFromSnoc(Insert(front, level), last, other);
      ApartFromSnoc(front, last, other);
      assert levels == front + [last];
    }
  }

  lemma ApartFromSnoc(levels: seq<Level>, level: Level, other: Level)
    ensures ApartFrom(levels + [level], other) <==> ApartFrom(levels, other) && Disjoint(level, other)
  {
    var more := levels + [level];
    assert forall i :: 0 <= i < |levels| ==> more[i] == levels[i];
    assert more[|levels|] == level;
  }

  lemma {:induction false} InsertApart(levels: seq<Level>, level: Level)
    ensures Apart(Insert(levels, level)) <==> Apart(levels) && ApartFrom(levels, level)
    decreases |levels|
  {
    if levels == [] || levels[|levels| - 1].minimum <= level.minimum {
      ApartSnoc(levels, level);
    } else {
      var front, last := levels[..|levels| - 1], levels[|levels| - 1];
      assert levels == front + [last];
      InsertApart(front, level);
      ApartSnoc(Insert(front, level), last);
      InsertApartFrom(front, level, last);
      ApartSnoc(front, last);
      ApartFromSnoc(front, last, level);
      DisjointSymmetric(level, last);
    }
  }

  lemma {:induction false} InsertAdds(levels: seq<Level>, level: Level)
    ensures multiset(Insert(levels, level)) == multiset(levels) + multiset{level}
    decreases |levels|
  {
    if levels != [] && levels[|levels| - 1].minimum > level.minimum {
      InsertAdds(levels[..|levels| - 1], level);
      assert levels == levels[..|levels| - 1] + [levels[|levels| - 1]];
    }
  }

  predicate Below(levels: seq<Level>, top: real) {
    forall i :: 0 <= i < |levels| ==> levels[i].minimum <= top
  }

  lemma {:induction false} InsertBelow(levels: seq<Level>, level: Level, top: real)
    requires Below(levels, top) && level.minimum <= top
    ensures Below(Insert(levels, level), top)
    decreases |levels|
  {
    if levels != [] && levels[|levels| - 1].minimum > level.minimum {
      InsertBelow(levels[..|levels| - 1], level, top);
    }
  }

  lemma {:induction false} InsertSorts(levels: seq<Level>, level: Level)
    requires Ascending(levels)
    ensures Ascending(Insert(levels, level))
    decreases |levels|
  {
    if levels != [] && levels[|levels| - 1].minimum > level.minimum {
      var front, last := levels[..|levels| - 1], levels[|levels| - 1];
      InsertSorts(front, level);
      InsertBelow(front, level, last.minimum);
    }
  }

  /** Sorting gives the same levels in ascending order. */
  lemma {:induction false} OrderedSorts(levels: seq<Level>)
    ensures Ascending(Ordered(levels))
    ensures multiset(Ordered(levels)) == multiset(levels)
    ensures Apart(Ordered(levels)) <==> Apart(levels)
  {
    if levels != [] {
      var front, last := levels[..|levels| - 1], levels[|levels| - 1];
      assert levels == front + [last];
      OrderedSorts(front);
      InsertSorts(Ordered(front), last);
      InsertAdds(Ordered(front), last);
      InsertApart(Ordered(front), last);
      ApartSnoc(front, last);
      SameApartFrom(Ordered(front), front, last);
    }
  }

  lemma SameApartFrom(a: seq<Level>, b: seq<Level>, level: Level)
    requires multiset(a) == multiset(b)
    ensures ApartFrom(a, level) <==> ApartFrom(b, level)
  {
    assert forall x :: x in a <==> x in multiset(a);
    assert forall x :: x in b <==> x in multiset(b);
    assert ApartFrom(a, level) <==> forall x :: x in a ==> Disjoint(x, level);
    assert ApartFrom(b, level) <==> forall x :: x in b ==> Disjoint(x, level);
  }

  lemma OrderedWellFormed(levels: seq<Level>)
    requires multiset(Ordered(levels)) == multiset(levels)
    ensures AllWellFormed(Ordered(levels)) <==> AllWellFormed(levels)
  {
    assert forall x :: x in levels <==> x in multiset(levels);
    assert forall x :: x in Ordered(levels) <==> x in multiset(Ordered(levels));
    assert AllWellFormed(levels) <==> forall x :: x in levels ==> WellFormed(x);
    assert AllWellFormed(Ordered(levels)) <==> forall x :: x in Ordered(levels) ==> WellFormed(x);
  }

  lemma {:induction false} NoFaultFrom(ordered: seq<Level>, i: nat)
    ensures FirstFault(ordered, i).None? <==> forall k :: i <= k < |ordered| ==> FaultAt(ordered, k).None?
    decreases |ordered| - i
  {
    if i < |ordered| {
      NoFaultFrom(ordered, i + 1);
    }
  }

  /** On a sorted list, comparing neighbours is enough. */
  lemma NeighboursSuffice(ordered: seq<Level>)
    requires Ascending(ordered)
    requires forall k :: 0 <= k < |ordered| ==> FaultAt(ordered, k).None?
    ensures AllWellFormed(ordered) && Apart(ordered)
  {
    forall k | 0 <= k < |ordered| ensures WellFormed(ordered[k]) {
      assert FaultAt(ordered, k).None?;
    }
    forall i, j | 0 <= i < j < |ordered| ensures Disjoint(ordered[i], ordered[j]) {
      assert FaultAt(ordered, i + 1).None?;
      assert ordered[i + 1].minimum <= ordered[j].minimum;
    }
  }

  lemma FaultsAreReal(ordered: seq<Level>, k: nat)
    requires Ascending(ordered) && k < |ordered| && FaultAt(ordered, k).Some?
    ensures !(AllWellFormed(ordered) && Apart(ordered))
  {
    if AllWellFormed(ordered) && Apart(ordered) {
      var a, b := ordered[k - 1], ordered[k];
      assert Disjoint(a, b);
      assert Matches(a, b.minimum) && Matches(b, b.minimum);
    }
  }

  /** Accepted exactly when every interval is well formed and no two share a percent, whatever the input order. */
  lemma MatrixExactly(levels: seq<Level>)
    ensures FirstFault(Ordered(levels), 0).None? <==> AllWellFormed(levels) && Apart(levels)
  {
    var ordered := Ordered(levels);
    OrderedSorts(levels);
    OrderedWellFormed(levels);
    NoFaultFrom(ordered, 0);
    if FirstFault(ordered, 0).None? {
      NeighboursSuffice(ordered);
    } else {
      var k :| 0 <= k < |ordered| && FaultAt(ordered, k).Some?;
      FaultsAreReal(ordered, k);
    }
  }

  function Responsible(levels: seq<Level>, percent: real): seq<Level> {
    if levels == [] then []
    else (if Matches(levels[0], percent) then [levels[0]] else []) + Responsible(levels[1..], percent)
  }

  lemma {:induction false} NobodyElse(levels: seq<Level>, percent: real)
    requires forall i :: 0 <= i < |levels| ==> !Matches(levels[i], percent)
    ensures Responsible(levels, percent) == []
  {
    if levels != [] {
      NobodyElse(levels[1..], percent);
    }
  }

  /** In an accepted matrix every discount falls to at most one level. */
  lemma {:induction false} OneLevelPerPercent(levels: seq<Level>, percent: real)
    requires Apart(levels)
    ensures |Responsible(levels, percent)| <= 1
  {
    if levels != [] {
      forall i, j | 0 <= i < j < |levels[1..]| ensures Disjoint(levels[1..][i], levels[1..][j]) {
        assert Disjoint(levels[i + 1], levels[j + 1]);
      }
      OneLevelPerPercent(levels[1..], percent);
      if Matches(levels[0], percent) {
        forall i | 0 <= i < |levels[1..]| ensures !Matches(levels[1..][i], percent) {
          assert Disjoint(levels[0], levels[i + 1]);
        }
        NobodyElse(levels[1..], percent);
      }
    }
  }

  // -------------------------------------------------------------- component codes

  datatype CodeFault = ComponentCodesRepeat | TaxCodesRepeat

  function CodeSet(codes: seq<string>): set<string> {
    set code | code in codes
  }

  /** `unique_codes`: the four component lists share one name space, taxes have their own. */
  function UniqueCodes(groups: seq<seq<string>>, taxes: seq<string>): Option<CodeFault> {
    if |Flatten(groups)| != |CodeSet(Flatten(groups))| then Some(ComponentCodesRepeat)
    else if |taxes| != |CodeSet(taxes)| then Some(TaxCodesRepeat)
    else None
  }

  predicate NoRepeats(codes: seq<string>) {
    forall i, j :: 0 <= i < j < |codes| ==> codes[i] != codes[j]
  }

  /** A list has as many different codes as entries exactly when no code repeats. */
  lemma {:induction false} SetSizeExactly(codes: seq<string>)
    ensures |CodeSet(codes)| <= |codes|
    ensures |CodeSet(codes)| == |codes| <==> NoRepeats(codes)
  {
    if codes != [] {
      var front, last := codes[..|codes| - 1], codes[|codes| - 1];
      SetSizeExactly(front);
      assert CodeSet(codes) == CodeSet(front) + {last};
      assert NoRepeats(codes) <==> NoRepeats(front) && last !in front;
    }
  }

  /** No code occurs twice in a group, and none in two groups. */
  predicate GroupsApart(groups: seq<seq<string>>) {
    && (forall g :: 0 <= g < |groups| ==> NoRepeats(groups[g]))
    && (forall g, h :: 0 <= g < h < |groups| ==> CodeSet(groups[g]) !! CodeSet(groups[h]))
  }

  lemma {:induction false} FlattenHolds(groups: seq<seq<string>>, code: string)
    ensures code in Flatten(groups) <==> exists g :: 0 <= g < |groups| && code in CodeSet(groups[g])
  {
    if groups != [] {
      FlattenHolds(groups[1..], code);
      assert forall g :: 1 <= g < |groups| ==> groups[g] == groups[1..][g - 1];
    }
  }

  lemma NoRepeatsConcat(a: seq<string>, b: seq<string>)
    ensures NoRepeats(a + b) <==> NoRepeats(a) && NoRepeats(b) && CodeSet(a) !! CodeSet(b)
  {
    var c := a + b;
    assert forall i :: 0 <= i < |a| ==> c[i] in CodeSet(a);
    assert forall i :: |a| <= i < |c| ==> c[i] == b[i - |a|] && c[i] in CodeSet(b);
    if NoRepeats(c) {
      forall i, j | 0 <= i < j < |b| ensures b[i] != b[j] {
        assert c[|a| + i] != c[|a| + j];
      }
      forall i, j | 0 <= i < |a| && 0 <= j < |b| ensures a[i] != b[j] {
        assert c[i] != c[|a| + j];
      }
      assert forall i, j :: 0 <= i < j < |a| ==> c[i] == a[i] && c[j] == a[j];
    }
  }

  lemma {:induction false} FlattenExactly(groups: seq<seq<string>>)
    ensures NoRepeats(Flatten(groups)) <==> GroupsApart(groups)
  {
    if groups != [] {
      var rest := groups[1..];
      FlattenExactly(rest);
      NoRepeatsConcat(groups[0], Flatten(rest));
      assert CodeSet(groups[0]) !! CodeSet(Flatten(rest))
        <==> forall h :: 0 <= h < |rest| ==> CodeSet(groups[0]) !! CodeSet(rest[h]) by {
        forall code ensures code in Flatten(rest) <==> exists g :: 0 <= g < |rest| && code in CodeSet(rest[g]) {
          FlattenHolds(rest, code);
        }
      }
      assert forall g :: 1 <= g < |groups| ==> groups[g] == rest[g - 1];
    }
  }

  lemma UniqueCodesExactly(groups: seq<seq<string>>, taxes: seq<string>)
    ensures UniqueCodes(groups, taxes).None? <==> GroupsApart(groups) && NoRepeats(taxes)
    ensures UniqueCodes(groups, taxes) == Some(ComponentCodesRepeat) <==> !GroupsApart(groups)
  {
    SetSizeExactly(Flatten(groups));
    SetSizeExactly(taxes);
    FlattenExactly(groups);
  }
}
