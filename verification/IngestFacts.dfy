/** What the ids of a fact table mean, and what they do not depend on. */
module IngestFacts {
  import opened Wrappers
  import opened Sorting
  import opened Sweep
  import opened Merge
  import opened CodeFacts
  import opened IngestModel

  // --- Where each definition stands ---

  /** How many definitions the first `k` files take up. */
  function Before(parsed: seq<Parsed>, most: nat, k: nat): nat
    requires k <= |parsed|
  {
    |DefinitionsOf(parsed[..k], most)|
  }

  lemma {:induction false} EarlierFilesStay(parsed: seq<Parsed>, most: nat, k: nat)
    requires k <= |parsed|
    ensures DefinitionsOf(parsed[..k], most) <= DefinitionsOf(parsed, most)
    decreases |parsed| - k
  {
    hide DefinitionsOf, FileDefinitions;
    if k == |parsed| {
      assert parsed[..k] == parsed;
    } else {
      NextFile(parsed, most, k);
      EarlierFilesStay(parsed, most, k + 1);
    }
  }

  lemma {:induction false} BeforeGrows(parsed: seq<Parsed>, most: nat, j: nat, k: nat)
    requires j <= k <= |parsed|
    ensures Before(parsed, most, j) <= Before(parsed, most, k)
    decreases k - j
  {
    if j < k {
      NextFile(parsed, most, j);
      BeforeGrows(parsed, most, j + 1, k);
    }
  }

  /** A file's definitions stand together, in the file's own order, as far as there is room. */
  lemma {:induction false} DefinitionAt(parsed: seq<Parsed>, most: nat, k: nat, i: nat)
    requires k < |parsed| && Before(parsed, most, k) <= i < Before(parsed, most, k + 1)
    ensures i < |DefinitionsOf(parsed, most)| && i - Before(parsed, most, k) < |parsed[k].facts.definitions|
    ensures DefinitionsOf(parsed, most)[i]
      == Definition(SatId(i), SatId(k), parsed[k].facts.definitions[i - Before(parsed, most, k)])
  {
    hide DefinitionsOf;
    NextFile(parsed, most, k);
    EarlierFilesStay(parsed, most, k + 1);
    var rest, upto := DefinitionsOf(parsed[..k], most), DefinitionsOf(parsed[..k + 1], most);
    assert DefinitionsOf(parsed, most)[i] == upto[i];
    assert upto[i] == FileDefinitions(SatId(k), parsed[k].facts.definitions, |rest|, most - |rest|)[i - |rest|];
  }

  lemma {:induction false} FileOfDefinition(parsed: seq<Parsed>, most: nat, i: nat, n: nat) returns (k: nat)
    requires n <= |parsed| && i < Before(parsed, most, n)
    ensures k < n && Before(parsed, most, k) <= i < Before(parsed, most, k + 1)
  {
    assert parsed[..0] == [];
    if i < Before(parsed, most, n - 1) {
      k := FileOfDefinition(parsed, most, i, n - 1);
    } else {
      k := n - 1;
    }
  }

  /** File ids are distinct: what any file ceiling below 2^32 grants. */
  predicate FewFiles(parsed: seq<Parsed>) {
    |parsed| <= U32_MAX + 1
  }

  /** Counting a file's run in the table counts exactly the definitions it kept, none included. */
  lemma {:induction false} RunIsFile(parsed: seq<Parsed>, most: nat, k: nat, i: nat)
    requires FewFiles(parsed) && k < |parsed| && Before(parsed, most, k) <= i <= Before(parsed, most, k + 1)
    ensures RunLength(DefinitionsOf(parsed, most), i, SatId(k)) == Before(parsed, most, k + 1) - i
    decreases Before(parsed, most, k + 1) - i
  {
    hide DefinitionsOf;
    assert parsed[..|parsed|] == parsed;
    if i < Before(parsed, most, k + 1) {
      DefinitionAt(parsed, most, k, i);
      RunIsFile(parsed, most, k, i + 1);
    } else if i < |DefinitionsOf(parsed, most)| {
      var m := FileOfDefinition(parsed, most, i, |parsed|);
      DefinitionAt(parsed, most, m, i);
      if m <= k { BeforeGrows(parsed, most, m + 1, k + 1); }
    }
  }

  /** A file that starts past the ids counts nothing from the last of them, which is another file's. */
  lemma {:induction false} PastIdsCountsNothing(parsed: seq<Parsed>, most: nat, k: nat)
    requires FewFiles(parsed) && k < |parsed| && Before(parsed, most, k) > U32_MAX
    ensures RunLength(DefinitionsOf(parsed, most), U32_MAX, SatId(k)) == 0
  {
    hide DefinitionsOf;
    var m := FileOfDefinition(parsed, most, U32_MAX, k);
    DefinitionAt(parsed, most, m, U32_MAX);
  }

  // --- Attribution under truncation ---

  /** How many of a file's definitions were kept. */
  function Kept(parsed: seq<Parsed>, most: nat, k: nat): nat
    requires k < |parsed|
  {
    var room := most - Before(parsed, most, k);
    if |parsed[k].facts.definitions| < room then |parsed[k].facts.definitions| else room
  }

  lemma {:induction false} KeptIsRoom(parsed: seq<Parsed>, most: nat, k: nat)
    requires k < |parsed|
    ensures Before(parsed, most, k + 1) - Before(parsed, most, k) == Kept(parsed, most, k)
  {
    hide DefinitionsOf;
    NextFile(parsed, most, k);
  }

  /** The global position a file's own index of a definition stands for. */
  function Position(parsed: seq<Parsed>, most: nat, k: nat, local: nat): nat
    requires k < |parsed|
  {
    Before(parsed, most, k) + local
  }

  /**
   The link is the `q`th reference of the `k`th file. Its enclosing id is set exactly when the file's own index
   points at a definition that was kept and whose position is an id, and then names that very definition.
   */
  ghost predicate Traces(parsed: seq<Parsed>, l: Limits, link: Link, k: nat, q: nat) {
    && k < |parsed| && q < |parsed[k].facts.references|
    && var raw, all := parsed[k].facts.references[q], DefinitionsOf(parsed, l.maxDefinitions);
    && link.file == k && link.name == raw.name && link.byte == raw.byte
    && (link.enclosing.Some? <==>
          raw.enclosing.Some? && raw.enclosing.value < Kept(parsed, l.maxDefinitions, k)
          && Position(parsed, l.maxDefinitions, k, raw.enclosing.value) <= U32_MAX)
    && (link.enclosing.Some? ==>
          && link.enclosing.value < |all|
          && all[link.enclosing.value]
             == Definition(link.enclosing.value, k, parsed[k].facts.definitions[raw.enclosing.value]))
  }

  lemma {:induction false} LinkTraces(parsed: seq<Parsed>, l: Limits, k: nat, q: nat)
    requires FewFiles(parsed) && k < |parsed| && q < |parsed[k].facts.references|
    ensures var base := Base(parsed, l.maxDefinitions, k);
      var count := RunLength(DefinitionsOf(parsed, l.maxDefinitions), base, SatId(k));
      Traces(parsed, l, LinkOf(SatId(k), parsed[k].facts.references[q], base, count), k, q)
  {
    hide DefinitionsOf, RunLength;
    var most := l.maxDefinitions;
    var base, raw := Base(parsed, most, k), parsed[k].facts.references[q];
    KeptIsRoom(parsed, most, k);
    if Before(parsed, most, k) > U32_MAX {
      PastIdsCountsNothing(parsed, most, k);
    } else {
      RunIsFile(parsed, most, k, base);
      if raw.enclosing.Some? && raw.enclosing.value < Kept(parsed, most, k) {
        DefinitionAt(parsed, most, k, base + raw.enclosing.value);
      }
    }
  }

  /** How many references the first `k` files have between them. */
  function RefsBefore(parsed: seq<Parsed>, k: nat): nat
    requires k <= |parsed|
  {
    if k == 0 then 0 else RefsBefore(parsed, k - 1) + |parsed[k - 1].facts.references|
  }

  lemma {:induction false} LinksCount(parsed: seq<Parsed>, n: nat, l: Limits)
    requires n <= |parsed|
    ensures |LinksOf(parsed, n, l)|
      == if RefsBefore(parsed, n) <= l.maxReferences then RefsBefore(parsed, n) else l.maxReferences
  {
    hide RunLength, Base, DefinitionsOf;
    if n > 0 { LinksCount(parsed, n - 1, l); }
  }

  lemma {:induction false} LinksTrace(parsed: seq<Parsed>, n: nat, l: Limits, p: nat)
    requires FewFiles(parsed) && n <= |parsed| && p < |LinksOf(parsed, n, l)|
    ensures exists k: nat, q: nat ::
      Traces(parsed, l, LinksOf(parsed, n, l)[p], k, q) && k < |parsed| && p == RefsBefore(parsed, k) + q
  {
    hide Traces, RunLength, Base, DefinitionsOf;
    var rest := LinksOf(parsed, n - 1, l);
    LinksCount(parsed, n - 1, l);
    if p < |rest| {
      LinksTrace(parsed, n - 1, l, p);
      assert LinksOf(parsed, n, l)[p] == rest[p];
    } else {
      var q, raws := p - |rest|, parsed[n - 1].facts.references;
      LinkTraces(parsed, l, n - 1, q);
      assert Firsts(raws, l.maxReferences - |rest|)[q] == raws[q];
      var base := Base(parsed, l.maxDefinitions, n - 1);
      var count := RunLength(DefinitionsOf(parsed, l.maxDefinitions), base, SatId(n - 1));
      assert LinksOf(parsed, n, l)[p] == LinkOf(SatId(n - 1), raws[q], base, count);
      assert Traces(parsed, l, LinksOf(parsed, n, l)[p], n - 1, q);
      assert p == RefsBefore(parsed, n - 1) + q;
    }
  }

  /**
   Every reference of every table, wherever the ceilings fell: the `p`th link is the `p`th reference of the
   files in order, in its own file, at its own definition or at none.
   */
  lemma {:induction false} EnclosingIsFaithful(t: Tools, inputs: seq<Input>, l: Limits, p: nat)
    requires FewFiles(ParsedOf(t, l, TakenIn(inputs, l))) && p < |IngestOf(t, inputs, l).references|
    ensures var parsed := ParsedOf(t, l, TakenIn(inputs, l));
      exists k: nat, q: nat ::
        Traces(parsed, l, IngestOf(t, inputs, l).references[p], k, q) && k < |parsed| && p == RefsBefore(parsed, k) + q
  {
    hide ParsedOf, TakenIn, Traces, DefinitionsOf, LinksOf, RefsBefore;
    var parsed := ParsedOf(t, l, TakenIn(inputs, l));
    LinksTrace(parsed, |parsed|, l, p);
  }

  // --- The ids themselves ---

  lemma {:induction false} NodesCount(parsed: seq<Parsed>, most: nat, i: nat)
    requires i < |DefinitionsOf(parsed, most)|
    ensures DefinitionsOf(parsed, most)[i].node == SatId(i)
  {
    assert parsed[..|parsed|] == parsed;
    var k := FileOfDefinition(parsed, most, i, |parsed|);
    DefinitionAt(parsed, most, k, i);
  }

  /** Node ids are 0, 1, 2, and so on exactly as long as they fit 32 bits. */
  lemma {:induction false} NodesAreDense(parsed: seq<Parsed>, most: nat)
    ensures (forall i :: 0 <= i < |DefinitionsOf(parsed, most)| ==> DefinitionsOf(parsed, most)[i].node == i)
      <==> |DefinitionsOf(parsed, most)| <= U32_MAX + 1
  {
    var all := DefinitionsOf(parsed, most);
    forall i | 0 <= i < |all| ensures all[i].node == SatId(i) { NodesCount(parsed, most, i); }
    hide DefinitionsOf;
    if |all| > U32_MAX + 1 { assert all[U32_MAX + 1].node == U32_MAX; }
  }

  /** What is parsed was extracted, so its definitions are in id order. */
  lemma {:induction false} ParsedInOrder(t: Tools, l: Limits, inputs: seq<Input>, k: nat)
    requires k < |ParsedOf(t, l, inputs)|
    ensures InOrder(ParsedOf(t, l, inputs)[k].facts.definitions)
  {
    hide Extract;
    var n := |inputs| - 1;
    if k < |ParsedOf(t, l, inputs[..n])| {
      ParsedInOrder(t, l, inputs[..n], k);
    } else {
      ExtractedInOrder(t, inputs[n].source, Admit(t, l, inputs[n]).language);
    }
  }

  /** In every table the ids follow the file, then the span's start, then the name's start. */
  lemma {:induction false} NodesAreOrdered(t: Tools, inputs: seq<Input>, l: Limits, i: nat, j: nat)
    requires FewFiles(ParsedOf(t, l, TakenIn(inputs, l))) && i < j < |IngestOf(t, inputs, l).definitions|
    ensures var all := IngestOf(t, inputs, l).definitions;
      all[i].file < all[j].file || (all[i].file == all[j].file && NotAfter(all[i].raw, all[j].raw))
  {
    hide ParsedOf, TakenIn, DefinitionsOf, LinksOf, SkippedOf;
    var parsed := ParsedOf(t, l, TakenIn(inputs, l));
    forall k | 0 <= k < |parsed| ensures InOrder(parsed[k].facts.definitions) {
      ParsedInOrder(t, l, TakenIn(inputs, l), k);
    }
    FilesThenDefinitions(parsed, l.maxDefinitions, i, j);
  }

  lemma {:induction false} FilesThenDefinitions(parsed: seq<Parsed>, most: nat, i: nat, j: nat)
    requires FewFiles(parsed) && i < j < |DefinitionsOf(parsed, most)|
    requires forall k :: 0 <= k < |parsed| ==> InOrder(parsed[k].facts.definitions)
    ensures var all := DefinitionsOf(parsed, most);
      all[i].file < all[j].file || (all[i].file == all[j].file && NotAfter(all[i].raw, all[j].raw))
  {
    hide DefinitionsOf;
    assert parsed[..|parsed|] == parsed;
    var p := FileOfDefinition(parsed, most, i, |parsed|);
    var q := FileOfDefinition(parsed, most, j, |parsed|);
    DefinitionAt(parsed, most, p, i);
    DefinitionAt(parsed, most, q, j);
    if q < p { BeforeGrows(parsed, most, q + 1, p); }
    if p == q { assert InOrder(parsed[p].facts.definitions); }
  }

  // --- What a table does not depend on ---

  lemma {:induction false} DistinctIsUntied(s: seq<Input>)
    requires DistinctPaths(s)
    ensures Untied(BY_PATH, s)
  {
    forall i, j | 0 <= i < |s| && 0 <= j < |s| && BY_PATH(s[i], s[j]) && BY_PATH(s[j], s[i]) ensures i == j {
      StringLeTotal(s[i].path, s[j].path);
    }
  }

  lemma {:induction false} SortKeepsDistinct(s: seq<Input>)
    requires DistinctPaths(s)
    ensures DistinctPaths(Sort(BY_PATH, s))
  {
    var r := Sort(BY_PATH, s);
    SortPermutes(BY_PATH, s);
    PermutedDistinct(s, r);
  }

  const PATH_OF: Input -> string := (x: Input) => x.path

  lemma {:induction false} PermutedDistinct(s: seq<Input>, r: seq<Input>)
    requires DistinctPaths(s) && multiset(s) == multiset(r)
    ensures DistinctPaths(r)
  {
    MappedPermutes(PATH_OF, s, r);
    var a, b := Mapped(PATH_OF, s), Mapped(PATH_OF, r);
    assert Distinct(a);
    DistinctPermutes(a, b);
    forall i, j | 0 <= i < j < |r| ensures r[i].path != r[j].path { assert b[i] != b[j]; }
  }

  /** Offered in any order, distinct paths give the same table. */
  lemma {:induction false} OrderDoesNotMatter(t: Tools, a: seq<Input>, b: seq<Input>, l: Limits)
    requires multiset(a) == multiset(b) && DistinctPaths(a)
    ensures IngestOf(t, a, l) == IngestOf(t, b, l)
  {
    ByPathOrders();
    SortPermutes(BY_PATH, a);
    SortPermutes(BY_PATH, b);
    SortSorts(BY_PATH, a);
    SortSorts(BY_PATH, b);
    SortKeepsDistinct(a);
    DistinctIsUntied(Sort(BY_PATH, a));
    hide Sort, Sorted, Untied, DistinctPaths, TotalPreorder;
    SortedIsUnique(BY_PATH, Sort(BY_PATH, a), Sort(BY_PATH, b));
  }

  /** No two of the inputs taken in have the same path, so no path gets two file ids. */
  lemma {:induction false} OneFilePerPath(inputs: seq<Input>, l: Limits)
    ensures DistinctPaths(TakenIn(inputs, l)) && Sorted(BY_PATH, TakenIn(inputs, l))
    ensures forall x :: x in TakenIn(inputs, l) ==> x in inputs
  {
    ByPathOrders();
    SortSorts(BY_PATH, inputs);
    SortPermutes(BY_PATH, inputs);
    var sorted := Sort(BY_PATH, inputs);
    DedupIsDistinct(sorted);
    forall x | x in TakenIn(inputs, l) ensures x in inputs {
      assert x in Dedup(sorted) && x in sorted;
      assert x in multiset(sorted);
    }
  }

  /** The inputs with one path, in the order they come. */
  function WithPath(s: seq<Input>, path: string): seq<Input> {
    if s == [] then []
    else if s[0].path == path then [s[0]] + WithPath(s[1..], path)
    else WithPath(s[1..], path)
  }

  lemma {:induction false} InsertIsStable(x: Input, s: seq<Input>, path: string)
    ensures WithPath(Insert(BY_PATH, x, s), path) == WithPath([x] + s, path)
  {
    assert ([x] + s)[1..] == s;
    if s != [] && !BY_PATH(x, s[0]) {
      StringLeTotal(x.path, s[0].path);
      InsertIsStable(x, s[1..], path);
      assert ([x] + s[1..])[1..] == s[1..];
      var r := Insert(BY_PATH, x, s);
      assert r[0] == s[0] && r[1..] == Insert(BY_PATH, x, s[1..]);
    }
  }

  lemma {:induction false} SortIsStable(s: seq<Input>, path: string)
    ensures WithPath(Sort(BY_PATH, s), path) == WithPath(s, path)
  {
    if s != [] {
      SortIsStable(s[1..], path);
      InsertIsStable(s[0], Sort(BY_PATH, s[1..]), path);
      assert ([s[0]] + Sort(BY_PATH, s[1..]))[1..] == Sort(BY_PATH, s[1..]);
    }
  }

  lemma {:induction false} WithPathPush(s: seq<Input>, x: Input, path: string)
    ensures WithPath(s + [x], path) == WithPath(s, path) + (if x.path == path then [x] else [])
  {
    if s == [] {
      assert s + [x] == [x] && WithPath([x][1..], path) == [];
    } else {
      assert (s + [x])[1..] == s[1..] + [x];
      WithPathPush(s[1..], x, path);
    }
  }

  lemma {:induction false} NoneWithPath(s: seq<Input>, path: string)
    requires WithPath(s, path) == []
    ensures forall x :: x in s ==> x.path != path
  {
    if s != [] {
      NoneWithPath(s[1..], path);
      assert s == [s[0]] + s[1..];
    }
  }

  lemma {:induction false} DedupKeepsFirst(s: seq<Input>, path: string)
    requires WithPath(s, path) != []
    ensures WithPath(s, path)[0] in Dedup(s) && forall x :: x in Dedup(s) ==> x in s
  {
    if |s| > 1 {
      var front, last := s[..|s| - 1], s[|s| - 1];
      assert s == front + [last];
      WithPathPush(front, last, path);
      DedupInside(front);
      if WithPath(front, path) != [] {
        DedupKeepsFirst(front, path);
      } else {
        NoneWithPath(front, path);
        assert Dedup(front)[|Dedup(front)| - 1] in front;
      }
    }
  }

  lemma {:induction false} DedupInside(s: seq<Input>)
    ensures forall x :: x in Dedup(s) ==> x in s
  {
    if |s| > 1 { DedupInside(s[..|s| - 1]); }
  }

  /** A path offered more than once gets the content it was first offered with. */
  lemma {:induction false} FirstOfferedWins(inputs: seq<Input>, path: string)
    requires WithPath(inputs, path) != []
    ensures WithPath(inputs, path)[0] in Arranged(inputs)
  {
    SortIsStable(inputs, path);
    DedupKeepsFirst(Sort(BY_PATH, inputs), path);
  }
}
