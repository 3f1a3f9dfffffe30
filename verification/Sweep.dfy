/** Attribution of references to definitions by one sweep over sorted spans. */
module Sweep {
  import opened Wrappers
  import opened Sorting

  datatype Span = Span(start: nat, end: nat)

  datatype Reference = Reference(name: string, qualifier: Option<string>, byte: nat, enclosing: Option<nat>)

  predicate Encloses(s: Span, byte: nat) { s.start <= byte < s.end }

  /** Spans in the order of their starts, as merged definitions are. */
  ghost predicate ByStart(spans: seq<Span>) {
    forall i, j :: 0 <= i < j < |spans| ==> spans[i].start <= spans[j].start
  }

  // --- The naive search ---

  /** The last of the first `n` spans that holds the byte. */
  function Naive(spans: seq<Span>, n: nat, byte: nat): (r: Option<nat>)
    requires n <= |spans|
    ensures r.Some? ==> r.value < n && Encloses(spans[r.value], byte)
    ensures r.Some? ==> forall k :: r.value < k < n ==> !Encloses(spans[k], byte)
    ensures r.None? ==> forall k :: 0 <= k < n ==> !Encloses(spans[k], byte)
  {
    if n == 0 then None
    else if Encloses(spans[n - 1], byte) then Some(n - 1)
    else Naive(spans, n - 1, byte)
  }

  // --- What the stack holds ---

  /** The first `n` spans that end past the byte, in order. */
  function StillOpen(spans: seq<Span>, n: nat, byte: nat): seq<nat>
    requires n <= |spans|
  {
    if n == 0 then []
    else if spans[n - 1].end > byte then StillOpen(spans, n - 1, byte) + [n - 1]
    else StillOpen(spans, n - 1, byte)
  }

  predicate Indexes(stack: seq<nat>, n: nat) { forall i :: 0 <= i < |stack| ==> stack[i] < n }

  function Retain(spans: seq<Span>, stack: seq<nat>, byte: nat): seq<nat>
    requires Indexes(stack, |spans|)
  {
    if stack == [] then []
    else
      var last, rest := stack[|stack| - 1], Retain(spans, stack[..|stack| - 1], byte);
      if spans[last].end > byte then rest + [last] else rest
  }

  lemma {:induction false} OpenIndexes(spans: seq<Span>, n: nat, byte: nat)
    requires n <= |spans|
    ensures Indexes(StillOpen(spans, n, byte), n)
  {
    if n > 0 { OpenIndexes(spans, n - 1, byte); }
  }

  lemma {:induction false} RetainPush(spans: seq<Span>, stack: seq<nat>, k: nat, byte: nat)
    requires Indexes(stack, |spans|) && k < |spans|
    ensures Indexes(stack + [k], |spans|)
    ensures var rest := Retain(spans, stack, byte);
      Retain(spans, stack + [k], byte) == if spans[k].end > byte then rest + [k] else rest
  {
    assert (stack + [k])[..|stack|] == stack;
  }

  /** Dropping what closed before a later byte, out of what was open at an earlier one. */
  lemma {:induction false} RetainLater(spans: seq<Span>, n: nat, before: nat, byte: nat)
    requires n <= |spans| && before <= byte
    ensures Indexes(StillOpen(spans, n, before), |spans|)
    ensures Retain(spans, StillOpen(spans, n, before), byte) == StillOpen(spans, n, byte)
  {
    OpenIndexes(spans, n, before);
    if n > 0 {
      RetainLater(spans, n - 1, before, byte);
      if spans[n - 1].end > before { RetainPush(spans, StillOpen(spans, n - 1, before), n - 1, byte); }
    }
  }

  /** The top of the stack is what the naive search finds. */
  lemma {:induction false} TopIsNaive(spans: seq<Span>, n: nat, byte: nat)
    requires n <= |spans| && (forall k :: 0 <= k < n ==> spans[k].start <= byte)
    ensures var open := StillOpen(spans, n, byte);
      Naive(spans, n, byte) == if open == [] then None else Some(open[|open| - 1])
  {
    if n > 0 { TopIsNaive(spans, n - 1, byte); }
  }

  /** Spans that start later hold nothing. */
  lemma {:induction false} LaterStartsDoNotHold(spans: seq<Span>, n: nat, m: nat, byte: nat)
    requires n <= m <= |spans| && (forall k :: n <= k < m ==> spans[k].start > byte)
    ensures Naive(spans, m, byte) == Naive(spans, n, byte)
  {
    if n < m { LaterStartsDoNotHold(spans, n, m - 1, byte); }
  }

  // --- The sweep ---

  function Upto(n: nat): seq<nat> { if n == 0 then [] else Upto(n - 1) + [n - 1] }

  lemma {:induction false} UptoHolds(n: nat)
    ensures |Upto(n)| == n && forall i :: 0 <= i < n ==> Upto(n)[i] == i
  {
    if n > 0 { UptoHolds(n - 1); }
  }

  function ByByte(bytes: seq<nat>): (nat, nat) -> bool {
    (i: nat, j: nat) => (if i < |bytes| then bytes[i] else 0) <= (if j < |bytes| then bytes[j] else 0)
  }

  /** Positions in the order of their bytes: every one of them, each once. */
  function Order(bytes: seq<nat>): seq<nat> { Sort(ByByte(bytes), Upto(|bytes|)) }

  lemma {:induction false} OrderSorts(bytes: seq<nat>)
    ensures forall i :: 0 <= i < |bytes| ==> i in Order(bytes)
    ensures Indexes(Order(bytes), |bytes|)
    ensures forall p, q :: 0 <= p < q < |Order(bytes)| ==> bytes[Order(bytes)[p]] <= bytes[Order(bytes)[q]]
    ensures Distinct(Order(bytes))
  {
    var le, n := ByByte(bytes), |bytes|;
    SortPermutes(le, Upto(n));
    SortSorts(le, Upto(n));
    UptoHolds(n);
    forall i | 0 <= i < |Order(bytes)| ensures Order(bytes)[i] < n {
      assert Order(bytes)[i] in multiset(Order(bytes));
    }
    forall i | 0 <= i < n ensures i in Order(bytes) {
      assert Upto(n)[i] == i;
      assert i in multiset(Order(bytes));
    }
    DistinctPermutes(Upto(n), Order(bytes));
  }

  function BytesOf(references: seq<Reference>): seq<nat> {
    seq(|references|, i requires 0 <= i < |references| => references[i].byte)
  }

  /** Drops the stacked spans that closed before the byte, in place and in order. */
  method RetainOpen(spans: seq<Span>, stack: seq<nat>, byte: nat) returns (kept: seq<nat>)
    requires Indexes(stack, |spans|)
    ensures kept == Retain(spans, stack, byte)
  {
    kept := [];
    var i := 0;
    while i < |stack|
      invariant 0 <= i <= |stack| && Indexes(stack[..i], |spans|) && kept == Retain(spans, stack[..i], byte)
    {
      assert stack[..i + 1] == stack[..i] + [stack[i]];
      assert stack[i] in stack;
      RetainPush(spans, stack[..i], stack[i], byte);
      if spans[stack[i]].end > byte { kept := kept + [stack[i]]; }
      i := i + 1;
    }
    assert stack[..i] == stack;
  }

  /** Searches the stack from the top for a span that holds the byte. */
  method FindFromTop(spans: seq<Span>, stack: seq<nat>, byte: nat) returns (found: Option<nat>)
    requires Indexes(stack, |spans|)
    ensures found.Some? ==> exists i :: 0 <= i < |stack| && found == Some(stack[i]) && TopAt(spans, stack, i, byte)
    ensures found.None? ==> forall j :: 0 <= j < |stack| ==> !Touches(spans[stack[j]], byte)
  {
    var i := |stack|;
    while i > 0
      invariant 0 <= i <= |stack|
      invariant forall j :: i <= j < |stack| ==> !Touches(spans[stack[j]], byte)
    {
      i := i - 1;
      if Touches(spans[stack[i]], byte) {
        assert TopAt(spans, stack, i, byte);
        return Some(stack[i]);
      }
    }
    found := None;
  }

  ghost predicate TopAt(spans: seq<Span>, stack: seq<nat>, i: nat, byte: nat)
    requires Indexes(stack, |spans|) && i < |stack|
  {
    Touches(spans[stack[i]], byte) && forall j :: i < j < |stack| ==> !Touches(spans[stack[j]], byte)
  }

  /** Containment of the empty span at the byte, which admits the byte just past the end. */
  predicate Touches(s: Span, byte: nat) { s.start <= byte <= s.end }

  function Answer(spans: seq<Span>, r: Reference): Reference {
    r.(enclosing := Naive(spans, |spans|, r.byte))
  }

  /** Every reference with its naive answer; without spans none is asked. */
  function Attributed(spans: seq<Span>, references: seq<Reference>): seq<Reference> {
    if spans == [] then references
    else seq(|references|, i requires 0 <= i < |references| => Answer(spans, references[i]))
  }

  /** Opens every span that starts by the byte. */
  method OpenUpTo(spans: seq<Span>, stack0: seq<nat>, next0: nat, byte: nat, ghost before: nat)
    returns (stack: seq<nat>, next: nat)
    requires next0 <= |spans| && before <= byte && ByStart(spans)
    requires stack0 == StillOpen(spans, next0, before)
    requires forall k :: 0 <= k < next0 ==> spans[k].start <= byte
    ensures next0 <= next <= |spans| && Indexes(stack, |spans|)
    ensures Retain(spans, stack, byte) == StillOpen(spans, next, byte)
    ensures forall k :: 0 <= k < next ==> spans[k].start <= byte
    ensures forall k :: next <= k < |spans| ==> spans[k].start > byte
  {
    stack, next := stack0, next0;
    RetainLater(spans, next0, before, byte);
    while next < |spans| && spans[next].start <= byte
      invariant next0 <= next <= |spans| && Indexes(stack, |spans|)
      invariant Retain(spans, stack, byte) == StillOpen(spans, next, byte)
      invariant forall k :: 0 <= k < next ==> spans[k].start <= byte
    {
      RetainPush(spans, stack, next, byte);
      stack := stack + [next];
      next := next + 1;
    }
  }

  lemma {:induction false} OpenTouches(spans: seq<Span>, n: nat, byte: nat)
    requires n <= |spans| && (forall k :: 0 <= k < n ==> spans[k].start <= byte)
    ensures Indexes(StillOpen(spans, n, byte), n)
    ensures forall i :: 0 <= i < |StillOpen(spans, n, byte)| ==> Touches(spans[StillOpen(spans, n, byte)[i]], byte)
  {
    if n > 0 { OpenTouches(spans, n - 1, byte); }
  }

  /** One stop of the sweep: open, close, look at the top. */
  method Visit(spans: seq<Span>, stack0: seq<nat>, next0: nat, byte: nat, ghost before: nat)
    returns (stack: seq<nat>, next: nat, found: Option<nat>)
    requires next0 <= |spans| && before <= byte && ByStart(spans)
    requires stack0 == StillOpen(spans, next0, before)
    requires forall k :: 0 <= k < next0 ==> spans[k].start <= byte
    ensures next <= |spans| && stack == StillOpen(spans, next, byte)
    ensures forall k :: 0 <= k < next ==> spans[k].start <= byte
    ensures found == Naive(spans, |spans|, byte)
  {
    stack, next := OpenUpTo(spans, stack0, next0, byte, before);
    stack := RetainOpen(spans, stack, byte);
    OpenTouches(spans, next, byte);
    TopIsNaive(spans, next, byte);
    LaterStartsDoNotHold(spans, next, |spans|, byte);
    found := FindFromTop(spans, stack, byte);
  }

  /**
   Gives every reference, in whatever order they come, the last definition whose half-open span holds
   its byte, and changes nothing else. Without definitions the references stay as they are.
   */
  method Attribute(spans: seq<Span>, references: array<Reference>)
    requires ByStart(spans)
    modifies references
    ensures references[..] == Attributed(spans, old(references[..]))
  {
    hide Naive, Order, StillOpen;
    if spans == [] { return; }
    ghost var was := references[..];
    var bytes := BytesOf(references[..]);
    var order := Order(bytes);
    OrderSorts(bytes);
    var stack: seq<nat>, next: nat, i := [], 0, 0;
    ghost var before := 0;
    NothingOpen(spans);
    while i < |order|
      invariant 0 <= i <= |order| && next <= |spans| && stack == StillOpen(spans, next, before)
      invariant forall k :: 0 <= k < next ==> spans[k].start <= before
      invariant forall p :: i <= p < |order| ==> before <= bytes[order[p]] && references[order[p]] == was[order[p]]
      invariant forall p :: 0 <= p < i ==> references[order[p]] == Answer(spans, was[order[p]])
    {
      var index := order[i];
      var byte := references[index].byte;
      var found;
      stack, next, found := Visit(spans, stack, next, byte, before);
      references[index] := references[index].(enclosing := found);
      before := byte;
      i := i + 1;
    }
    forall k | 0 <= k < references.Length ensures references[k] == Answer(spans, was[k]) {
      assert k in order;
    }
  }

  lemma {:induction false} NothingOpen(spans: seq<Span>)
    ensures StillOpen(spans, 0, 0) == []
  {
  }

  // --- When the last span that holds the byte is the innermost ---

  /** Any two spans are disjoint or nested. */
  ghost predicate Laminar(spans: seq<Span>) {
    forall i, j :: 0 <= i < j < |spans| ==>
      Apart(spans[i], spans[j]) || Within(spans[i], spans[j]) || Within(spans[j], spans[i])
  }

  predicate Apart(a: Span, b: Span) { a.end <= b.start || b.end <= a.start }

  predicate Within(a: Span, b: Span) { b.start <= a.start && a.end <= b.end }

  function Width(s: Span): int { s.end - s.start }

  ghost predicate Smallest(spans: seq<Span>, k: nat, byte: nat)
    requires k < |spans|
  {
    forall j :: 0 <= j < |spans| && Encloses(spans[j], byte) ==> Width(spans[k]) <= Width(spans[j])
  }

  /** With laminar spans and distinct starts, the sweep finds the one smallest enclosing span. */
  lemma {:induction false} InnermostIsUnique(spans: seq<Span>, byte: nat, j: nat)
    requires ByStart(spans) && Laminar(spans) && j < |spans| && Encloses(spans[j], byte)
    requires forall p, q :: 0 <= p < q < |spans| ==> spans[p].start != spans[q].start
    ensures var r := Naive(spans, |spans|, byte);
      && r.Some? && Smallest(spans, r.value, byte) && (j != r.value ==> Width(spans[r.value]) < Width(spans[j]))
  {
    var k := Naive(spans, |spans|, byte).value;
    forall i | 0 <= i < |spans| && Encloses(spans[i], byte) && i != k ensures Width(spans[k]) < Width(spans[i]) {
      assert i < k;
    }
  }

  /** In general it does so exactly when no shorter enclosing span with the same start comes before the one found. */
  lemma {:induction false} SmallestExactlyWhen(spans: seq<Span>, byte: nat, k: nat)
    requires ByStart(spans) && Laminar(spans) && Naive(spans, |spans|, byte) == Some(k)
    ensures Smallest(spans, k, byte) <==>
      forall j :: 0 <= j < k && spans[j].start == spans[k].start && Encloses(spans[j], byte) ==>
        spans[k].end <= spans[j].end
  {
    forall i | 0 <= i < |spans| && Encloses(spans[i], byte) && i != k
      ensures i < k && spans[i].start <= spans[k].start
    {
    }
  }

  /** Two spans with one start: the later and longer one gets every reference of the shorter. */
  lemma {:induction false} SharedStartMisleads()
    ensures var spans := [Span(0, 5), Span(0, 10)];
      ByStart(spans) && Laminar(spans) && Naive(spans, 2, 3) == Some(1) && !Smallest(spans, 1, 3)
  {
    var spans := [Span(0, 5), Span(0, 10)];
    assert Encloses(spans[1], 3) && Naive(spans, 2, 3) == Some(1);
    assert Encloses(spans[0], 3) && Width(spans[0]) < Width(spans[1]);
  }
}
