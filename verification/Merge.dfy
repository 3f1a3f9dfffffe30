/** Merging the captures that describe one definition. */
module Merge {
  import opened Wrappers
  import opened Sorting
  import opened Sweep

  /** `rest` stands for every measure but the parameter count. */
  datatype Metrics = Metrics(parameters: nat, rest: string)

  datatype RawDefinition = RawDefinition(
    name: string, kind: nat, nameStart: nat, span: Span, lines: (nat, nat), metrics: Metrics,
    testScope: bool, documentation: Option<string>)

  /** What makes two captures the same definition. */
  datatype Identity = Identity(nameStart: nat, name: string)

  const ID_OF: RawDefinition -> Identity := (d: RawDefinition) => Identity(d.nameStart, d.name)

  /** A span's length, which is none when it ends before it starts. */
  function Len(s: Span): nat { if s.end >= s.start then s.end - s.start else 0 }

  function Max(a: nat, b: nat): nat { if a < b then b else a }

  /** The higher kind, the wider span with what was measured over it, the larger parameter count. */
  function Absorb(p: RawDefinition, d: RawDefinition): RawDefinition {
    var wide := if Len(d.span) > Len(p.span) then p.(span := d.span, lines := d.lines, metrics := d.metrics) else p;
    wide.(kind := Max(p.kind, d.kind),
          metrics := wide.metrics.(parameters := Max(p.metrics.parameters, d.metrics.parameters)),
          testScope := p.testScope || d.testScope,
          documentation := if p.documentation.None? then d.documentation else p.documentation)
  }

  const BY_NAME: (RawDefinition, RawDefinition) -> bool :=
    (a: RawDefinition, b: RawDefinition) =>
      a.nameStart < b.nameStart
      || (a.nameStart == b.nameStart
          && (a.span.start < b.span.start || (a.span.start == b.span.start && StringLe(a.name, b.name))))

  const BY_SPAN: (RawDefinition, RawDefinition) -> bool := (a: RawDefinition, b: RawDefinition) => NotAfter(a, b)

  predicate NotAfter(a: RawDefinition, b: RawDefinition) {
    a.span.start < b.span.start || (a.span.start == b.span.start && a.nameStart <= b.nameStart)
  }

  /** Each run of neighbours with one identity becomes one definition. */
  function Runs(s: seq<RawDefinition>): seq<RawDefinition> {
    if s == [] then [] else Extended(Runs(s[..|s| - 1]), s[|s| - 1])
  }

  function Extended(merged: seq<RawDefinition>, d: RawDefinition): seq<RawDefinition> {
    if merged != [] && ID_OF(merged[|merged| - 1]) == ID_OF(d) then
      merged[|merged| - 1 := Absorb(merged[|merged| - 1], d)]
    else merged + [d]
  }

  function Merged(captured: seq<RawDefinition>): seq<RawDefinition> {
    Sort(BY_SPAN, Runs(Sort(BY_NAME, captured)))
  }

  method MergeDefinitions(captured: seq<RawDefinition>) returns (merged: seq<RawDefinition>)
    ensures merged == Merged(captured)
  {
    hide Sort, Absorb, Runs, Extended;
    NoRuns();
    var sorted := Sort(BY_NAME, captured);
    merged := [];
    var i := 0;
    while i < |sorted|
      invariant 0 <= i <= |sorted| && merged == Runs(sorted[..i])
    {
      NextRun(sorted, merged, i);
      var d := sorted[i];
      if merged != [] && merged[|merged| - 1].nameStart == d.nameStart && merged[|merged| - 1].name == d.name {
        merged := merged[|merged| - 1 := Absorb(merged[|merged| - 1], d)];
      } else {
        merged := merged + [d];
      }
      i := i + 1;
    }
    assert sorted[..i] == sorted;
    merged := Sort(BY_SPAN, merged);
  }

  lemma {:induction false} NoRuns()
    ensures Runs([]) == []
  {
  }

  lemma {:induction false} NextRun(s: seq<RawDefinition>, merged: seq<RawDefinition>, i: nat)
    requires i < |s| && merged == Runs(s[..i])
    ensures Runs(s[..i + 1])
      == if merged != [] && merged[|merged| - 1].nameStart == s[i].nameStart && merged[|merged| - 1].name == s[i].name
         then merged[|merged| - 1 := Absorb(merged[|merged| - 1], s[i])] else merged + [s[i]]
  {
    hide Absorb;
    assert s[..i + 1][..i] == s[..i];
  }

  // --- The order of the result ---

  /** Definitions in the order their ids are assigned in. */
  ghost predicate InOrder(defs: seq<RawDefinition>) {
    forall i, j :: 0 <= i < j < |defs| ==> NotAfter(defs[i], defs[j])
  }

  function SpansOf(defs: seq<RawDefinition>): seq<Span> {
    seq(|defs|, i requires 0 <= i < |defs| => defs[i].span)
  }

  lemma {:induction false} MergedInOrder(captured: seq<RawDefinition>)
    ensures InOrder(Merged(captured)) && ByStart(SpansOf(Merged(captured)))
  {
    var runs := Runs(Sort(BY_NAME, captured));
    assert TotalPreorder(BY_SPAN);
    SortSorts(BY_SPAN, runs);
    var r := Merged(captured);
    forall i, j | 0 <= i < j < |r| ensures NotAfter(r[i], r[j]) { assert BY_SPAN(r[i], r[j]); }
  }

  // --- Which definitions there are ---

  /** Drops every repetition of its left neighbour. */
  function Compressed(ks: seq<Identity>): (r: seq<Identity>)
    ensures ks != [] ==> r != [] && r[|r| - 1] == ks[|ks| - 1]
    ensures ks == [] ==> r == []
  {
    if ks == [] then []
    else
      var front, x := ks[..|ks| - 1], ks[|ks| - 1];
      if front != [] && front[|front| - 1] == x then Compressed(front) else Compressed(front) + [x]
  }

  lemma {:induction false} ExtendedNames(merged: seq<RawDefinition>, d: RawDefinition)
    ensures var ks := Mapped(ID_OF, merged);
      Mapped(ID_OF, Extended(merged, d)) == if ks != [] && ks[|ks| - 1] == ID_OF(d) then ks else ks + [ID_OF(d)]
  {
    assert |Mapped(ID_OF, merged)| == |merged|;
  }

  lemma {:induction false} RunsCompress(s: seq<RawDefinition>)
    ensures Mapped(ID_OF, Runs(s)) == Compressed(Mapped(ID_OF, s))
  {
    if s != [] {
      var n, ks := |s| - 1, Mapped(ID_OF, s);
      RunsCompress(s[..n]);
      assert ks[..n] == Mapped(ID_OF, s[..n]) && ks[n] == ID_OF(s[n]);
      ExtendedNames(Runs(s[..n]), s[n]);
      hide Extended, Mapped;
    }
  }

  lemma {:induction false} CompressedHolds(ks: seq<Identity>, k: Identity)
    ensures k in Compressed(ks) <==> k in ks
  {
    if ks != [] {
      CompressedHolds(ks[..|ks| - 1], k);
      assert ks == ks[..|ks| - 1] + [ks[|ks| - 1]];
    }
  }

  /** Nothing stands between two captures of one identity but captures of that identity. */
  ghost predicate Together(ks: seq<Identity>) {
    forall i, j, k :: 0 <= i < j < k < |ks| && ks[i] == ks[k] ==> ks[j] == ks[k]
  }

  lemma {:induction false} CompressedDistinct(ks: seq<Identity>)
    ensures Distinct(Compressed(ks)) <==> Together(ks)
  {
    if ks == [] {
      NoneTogether();
    } else {
      hide Distinct, Together;
      var n := |ks| - 1;
      var front, x := ks[..n], ks[n];
      CompressedDistinct(front);
      CompressedHolds(front, x);
      if front != [] && ks[n - 1] == x {
        TogetherRepeats(front, x);
      } else {
        TogetherNew(front, x);
        DistinctPush(Compressed(front), x);
      }
      assert front + [x] == ks;
    }
  }

  lemma {:induction false} NoneTogether()
    ensures Distinct<Identity>([]) && Together([])
  {
  }

  lemma {:induction false} DistinctPush(s: seq<Identity>, x: Identity)
    ensures Distinct(s + [x]) <==> Distinct(s) && x !in s
  {
    var r := s + [x];
    if Distinct(r) {
      forall i, j | 0 <= i < j < |s| ensures s[i] != s[j] { assert r[i] != r[j]; }
      forall i | 0 <= i < |s| ensures s[i] != x { assert r[i] != r[|s|]; }
    }
  }

  lemma {:induction false} TogetherRepeats(front: seq<Identity>, x: Identity)
    requires front != [] && front[|front| - 1] == x
    ensures Together(front + [x]) <==> Together(front)
  {
    var ks, n := front + [x], |front|;
    if Together(front) {
      forall i, j, k | 0 <= i < j < k <= n && ks[i] == ks[k] ensures ks[j] == ks[k] {
        if k == n && j < n - 1 { assert front[i] == front[n - 1]; }
      }
    }
    if Together(ks) {
      forall i, j, k | 0 <= i < j < k < n && front[i] == front[k] ensures front[j] == front[k] {
        assert ks[i] == front[i] && ks[j] == front[j] && ks[k] == front[k];
      }
    }
  }

  lemma {:induction false} TogetherNew(front: seq<Identity>, x: Identity)
    requires front == [] || front[|front| - 1] != x
    ensures Together(front + [x]) <==> Together(front) && x !in front
  {
    var ks, n := front + [x], |front|;
    if Together(ks) {
      forall i, j, k | 0 <= i < j < k < n && front[i] == front[k] ensures front[j] == front[k] {
        assert ks[i] == front[i] && ks[j] == front[j] && ks[k] == front[k];
      }
      forall i | 0 <= i < n ensures front[i] != x {
        if i < n - 1 { assert ks[i] == front[i] && ks[n - 1] == front[n - 1] && ks[n] == x; }
      }
    }
  }

  /** The merged list names exactly the definitions that were captured. */
  lemma {:induction false} MergedNames(captured: seq<RawDefinition>, id: Identity)
    ensures id in Mapped(ID_OF, Merged(captured)) <==> id in Mapped(ID_OF, captured)
  {
    var sorted := Sort(BY_NAME, captured);
    var runs := Runs(sorted);
    SortPermutes(BY_NAME, captured);
    SortPermutes(BY_SPAN, runs);
    MappedPermutes(ID_OF, captured, sorted);
    MappedPermutes(ID_OF, runs, Merged(captured));
    RunsCompress(sorted);
    CompressedHolds(Mapped(ID_OF, sorted), id);
    InMultiset(Mapped(ID_OF, Merged(captured)), id);
    InMultiset(Mapped(ID_OF, runs), id);
    InMultiset(Mapped(ID_OF, sorted), id);
    InMultiset(Mapped(ID_OF, captured), id);
  }

  lemma {:induction false} InMultiset(s: seq<Identity>, k: Identity)
    ensures k in s <==> k in multiset(s)
  {
  }

  /** Each definition comes out once exactly when the sort by name brings its captures together. */
  lemma {:induction false} UniqueExactlyWhenTogether(captured: seq<RawDefinition>)
    ensures Distinct(Mapped(ID_OF, Merged(captured))) <==> Together(Mapped(ID_OF, Sort(BY_NAME, captured)))
  {
    var sorted := Sort(BY_NAME, captured);
    var runs, merged := Runs(sorted), Merged(captured);
    SortPermutes(BY_SPAN, runs);
    MappedPermutes(ID_OF, runs, merged);
    RunsCompress(sorted);
    CompressedDistinct(Mapped(ID_OF, sorted));
    hide Distinct;
    if Distinct(Mapped(ID_OF, merged)) { DistinctPermutes(Mapped(ID_OF, merged), Mapped(ID_OF, runs)); }
    if Distinct(Mapped(ID_OF, runs)) { DistinctPermutes(Mapped(ID_OF, runs), Mapped(ID_OF, merged)); }
  }

  lemma {:induction false} ByNameOrders()
    ensures TotalPreorder(BY_NAME)
  {
    forall a: RawDefinition, b: RawDefinition ensures BY_NAME(a, b) || BY_NAME(b, a) { StringLeTotal(a.name, b.name); }
    forall a: RawDefinition, b: RawDefinition, c: RawDefinition | BY_NAME(a, b) && BY_NAME(b, c) ensures BY_NAME(a, c) {
      if StringLe(a.name, b.name) && StringLe(b.name, c.name) { StringLeTransitive(a.name, b.name, c.name); }
    }
  }

  /** One name per name start is enough. */
  lemma {:induction false} OneNamePerStartIsTogether(captured: seq<RawDefinition>)
    requires forall a, b :: a in captured && b in captured && a.nameStart == b.nameStart ==> a.name == b.name
    ensures Distinct(Mapped(ID_OF, Merged(captured)))
  {
    var sorted := Sort(BY_NAME, captured);
    ByNameOrders();
    SortSorts(BY_NAME, captured);
    SortPermutes(BY_NAME, captured);
    var ks := Mapped(ID_OF, sorted);
    forall i, j, k | 0 <= i < j < k < |ks| && ks[i] == ks[k] ensures ks[j] == ks[k] {
      assert BY_NAME(sorted[i], sorted[j]) && BY_NAME(sorted[j], sorted[k]);
      assert sorted[j] in multiset(captured) && sorted[k] in multiset(captured);
    }
    UniqueExactlyWhenTogether(captured);
  }

  /** Three captures at one name start, sorted so that another name comes between: one definition comes out twice. */
  lemma {:induction false} SplitNameComesOutTwice()
    ensures exists captured :: !Distinct(Mapped(ID_OF, Merged(captured)))
  {
    var plain := RawDefinition("a", 0, 10, Span(0, 20), (1, 1), Metrics(0, ""), false, None);
    var captured := [plain, plain.(name := "b"), plain.(span := Span(5, 20))];
    assert StringLe("a", "b");
    assert Sort(BY_NAME, captured) == captured by {
      assert captured[1..] == [captured[1], captured[2]] && captured[1..][1..] == [captured[2]];
      assert captured[1..][1..][1..] == [];
      assert Sort(BY_NAME, [captured[2]]) == [captured[2]];
      assert Sort(BY_NAME, captured[1..]) == captured[1..];
    }
    var ks := Mapped(ID_OF, captured);
    assert ks[0] == ks[2] && ks[1] != ks[2];
    UniqueExactlyWhenTogether(captured);
  }

  // --- What a merged definition carries ---

  /** At least the kind, the width, the parameters and the test mark of the capture. */
  predicate Dominates(m: RawDefinition, d: RawDefinition) {
    && ID_OF(m) == ID_OF(d) && d.kind <= m.kind && Len(d.span) <= Len(m.span)
    && d.metrics.parameters <= m.metrics.parameters && (d.testScope ==> m.testScope)
  }

  ghost predicate Dominated(s: seq<RawDefinition>, d: RawDefinition) {
    exists i :: 0 <= i < |s| && Dominates(s[i], d)
  }

  lemma {:induction false} ExtendedDominates(merged: seq<RawDefinition>, d: RawDefinition)
    ensures Dominated(Extended(merged, d), d)
    ensures forall x :: Dominated(merged, x) ==> Dominated(Extended(merged, d), x)
  {
    var r := Extended(merged, d);
    assert Dominates(r[|r| - 1], d);
    forall x | Dominated(merged, x) ensures Dominated(r, x) {
      var i :| 0 <= i < |merged| && Dominates(merged[i], x);
      assert Dominates(r[i], x);
    }
  }

  lemma {:induction false} RunsDominate(s: seq<RawDefinition>, i: nat)
    requires i < |s|
    ensures Dominated(Runs(s), s[i])
  {
    hide Dominated, Extended;
    var n := |s| - 1;
    ExtendedDominates(Runs(s[..n]), s[n]);
    if i < n { RunsDominate(s[..n], i); }
  }

  lemma {:induction false} SameMembers(a: seq<RawDefinition>, b: seq<RawDefinition>, d: RawDefinition)
    requires multiset(a) == multiset(b) && d in a
    ensures d in b
  {
    assert d in multiset(a);
  }

  /** Every capture is represented by a definition at least as wide, as high in kind and as rich in parameters. */
  lemma {:induction false} EveryCaptureIsKept(captured: seq<RawDefinition>, d: RawDefinition)
    requires d in captured
    ensures Dominated(Merged(captured), d)
  {
    var sorted := Sort(BY_NAME, captured);
    var runs, merged := Runs(sorted), Merged(captured);
    SortPermutes(BY_NAME, captured);
    SortPermutes(BY_SPAN, runs);
    hide Sort, Runs, Dominates;
    SameMembers(captured, sorted, d);
    var i :| 0 <= i < |sorted| && sorted[i] == d;
    RunsDominate(sorted, i);
    var j :| 0 <= j < |runs| && Dominates(runs[j], d);
    SameMembers(runs, merged, runs[j]);
    var k :| 0 <= k < |merged| && merged[k] == runs[j];
    assert Dominates(merged[k], d);
  }

  /** Span, lines and measures come from one capture of the same definition. */
  predicate Measured(m: RawDefinition, d: RawDefinition) {
    ID_OF(m) == ID_OF(d) && m.span == d.span && m.lines == d.lines && m.metrics.rest == d.metrics.rest
  }

  ghost predicate MeasuredIn(m: RawDefinition, s: seq<RawDefinition>) {
    exists i :: 0 <= i < |s| && Measured(m, s[i])
  }

  lemma {:induction false} RunsMeasured(s: seq<RawDefinition>, j: nat)
    requires j < |Runs(s)|
    ensures MeasuredIn(Runs(s)[j], s)
  {
    var n := |s| - 1;
    var rest := Runs(s[..n]);
    if j < |rest| {
      RunsMeasured(s[..n], j);
      var i :| 0 <= i < n && Measured(rest[j], s[..n][i]);
      assert Measured(Runs(s)[j], s[i]) || Measured(Runs(s)[j], s[n]);
    } else {
      assert Measured(Runs(s)[j], s[n]);
    }
  }

  lemma {:induction false} NothingIsInvented(captured: seq<RawDefinition>, m: RawDefinition)
    requires m in Merged(captured)
    ensures MeasuredIn(m, captured)
  {
    var sorted := Sort(BY_NAME, captured);
    var runs := Runs(sorted);
    SortPermutes(BY_NAME, captured);
    SortPermutes(BY_SPAN, runs);
    SameMembers(Merged(captured), runs, m);
    var j :| 0 <= j < |runs| && runs[j] == m;
    RunsMeasured(sorted, j);
    var i :| 0 <= i < |sorted| && Measured(m, sorted[i]);
    SameMembers(sorted, captured, sorted[i]);
    var k :| 0 <= k < |captured| && captured[k] == sorted[i];
    assert Measured(m, captured[k]);
  }
}
