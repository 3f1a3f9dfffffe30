/** What ingest computes: the fact table of a set of sources, and what its ids mean. */
module IngestModel {
  import opened Wrappers
  import opened Sorting
  import opened Sweep
  import opened Merge
  import opened CodeFacts

  const U32_MAX: nat := 0xFFFF_FFFF

  datatype Input = Input(path: string, source: string)

  datatype Limits = Limits(maxSourceBytes: nat, maxFiles: nat, maxDefinitions: nat, maxReferences: nat)

  datatype SkipReason = UnknownLanguage | Oversize | ParserTimeout

  datatype Skipped = Skipped(path: string, reason: SkipReason)

  datatype SourceFile = SourceFile(id: nat, path: string, language: Language, bytes: nat)

  datatype Definition = Definition(node: nat, file: nat, raw: RawDefinition)

  datatype Link = Link(file: nat, name: string, byte: nat, enclosing: Option<nat>)

  datatype Truncation = Truncation(files: bool, definitions: bool, references: bool)

  datatype Ingested = Ingested(
    files: seq<SourceFile>, definitions: seq<Definition>, references: seq<Link>, skipped: seq<Skipped>,
    parseErrors: nat, truncation: Truncation)

  /** One admitted file that extracted. */
  datatype Parsed = Parsed(input: Input, language: Language, facts: FileFacts)

  /** Conversion to a 32-bit id, which stops at the largest. */
  function SatId(n: nat): nat { if n <= U32_MAX then n else U32_MAX }

  // --- Arranging the inputs ---

  const BY_PATH: (Input, Input) -> bool := (a: Input, b: Input) => StringLe(a.path, b.path)

  lemma {:induction false} ByPathOrders()
    ensures TotalPreorder(BY_PATH)
  {
    forall a: Input, b: Input ensures BY_PATH(a, b) || BY_PATH(b, a) { StringLeTotal(a.path, b.path); }
    forall a: Input, b: Input, c: Input | BY_PATH(a, b) && BY_PATH(b, c) ensures BY_PATH(a, c) {
      StringLeTransitive(a.path, b.path, c.path);
    }
  }

  /** Keeps the first of each run of equal paths. */
  function Dedup(s: seq<Input>): (r: seq<Input>)
    ensures s != [] ==> r != []
  {
    if |s| <= 1 then s
    else
      var rest, last := Dedup(s[..|s| - 1]), s[|s| - 1];
      if rest[|rest| - 1].path == last.path then rest else rest + [last]
  }

  function Arranged(inputs: seq<Input>): seq<Input> { Dedup(Sort(BY_PATH, inputs)) }

  function Firsts<T>(s: seq<T>, n: nat): seq<T> { if |s| > n then s[..n] else s }

  ghost predicate DistinctPaths(s: seq<Input>) {
    forall i, j :: 0 <= i < j < |s| ==> s[i].path != s[j].path
  }

  lemma {:induction false} DedupIsDistinct(s: seq<Input>)
    requires Sorted(BY_PATH, s)
    ensures Sorted(BY_PATH, Dedup(s)) && DistinctPaths(Dedup(s))
    ensures s != [] ==> Dedup(s)[|Dedup(s)| - 1].path == s[|s| - 1].path
    ensures forall x :: x in Dedup(s) ==> x in s
  {
    if |s| > 1 {
      var front, last := s[..|s| - 1], s[|s| - 1];
      DedupIsDistinct(front);
      var rest := Dedup(front);
      forall i | 0 <= i < |rest|
        ensures BY_PATH(rest[i], last) && (rest[i].path == last.path ==> rest[|rest| - 1].path == last.path)
      {
        assert rest[i] in front;
        var k :| 0 <= k < |front| && front[k] == rest[i];
        assert BY_PATH(s[k], s[|s| - 1]);
        if rest[i].path == last.path { BetweenEnds(s, k, rest[|rest| - 1].path); }
      }
    }
  }

  /** Between two equal paths of a sorted sequence there is no other path. */
  lemma {:induction false} BetweenEnds(s: seq<Input>, k: nat, path: string)
    requires Sorted(BY_PATH, s) && k < |s| - 1 && s[k].path == s[|s| - 1].path && path == s[|s| - 2].path
    ensures path == s[k].path
  {
    assert BY_PATH(s[|s| - 2], s[|s| - 1]);
    assert k == |s| - 2 || BY_PATH(s[k], s[|s| - 2]);
    StringLeTotal(path, s[k].path);
  }

  lemma {:induction false} DistinctIsUntouched(s: seq<Input>)
    requires DistinctPaths(s)
    ensures Dedup(s) == s
  {
    if |s| > 1 {
      DistinctIsUntouched(s[..|s| - 1]);
      assert s == s[..|s| - 1] + [s[|s| - 1]];
    }
  }

  // --- Admission and parsing ---

  datatype Admission = Admitted(language: Language) | Rejected(reason: SkipReason)

  function Admit(t: Tools, l: Limits, input: Input): Admission {
    var language := t.languageOf(input.path);
    if language.None? then Rejected(UnknownLanguage)
    else if |input.source| > l.maxSourceBytes then Rejected(Oversize)
    else Admitted(language.value)
  }

  /** The admitted inputs, as they are handed to extraction. */
  function BatchOf(t: Tools, l: Limits, inputs: seq<Input>): seq<Item> {
    if inputs == [] then []
    else
      var last, rest := inputs[|inputs| - 1], BatchOf(t, l, inputs[..|inputs| - 1]);
      match Admit(t, l, last)
      case Admitted(language) => rest + [Item(last.path, last.source, language)]
      case Rejected(_) => rest
  }

  lemma {:induction false} BatchIsLabelled(t: Tools, l: Limits, inputs: seq<Input>)
    ensures Labelled(t, BatchOf(t, l, inputs))
  {
    if inputs != [] { BatchIsLabelled(t, l, inputs[..|inputs| - 1]); }
  }

  function ParsedOf(t: Tools, l: Limits, inputs: seq<Input>): seq<Parsed> {
    if inputs == [] then []
    else
      var last, rest := inputs[|inputs| - 1], ParsedOf(t, l, inputs[..|inputs| - 1]);
      match Admit(t, l, last)
      case Admitted(language) =>
        var facts := Extract(t, last.source, language);
        if facts.Some? then rest + [Parsed(last, language, facts.value)] else rest
      case Rejected(_) => rest
  }

  function SkippedOf(t: Tools, l: Limits, inputs: seq<Input>): seq<Skipped> {
    if inputs == [] then []
    else
      var last, rest := inputs[|inputs| - 1], SkippedOf(t, l, inputs[..|inputs| - 1]);
      match Admit(t, l, last)
      case Admitted(language) =>
        if Extract(t, last.source, language).Some? then rest else rest + [Skipped(last.path, ParserTimeout)]
      case Rejected(reason) => rest + [Skipped(last.path, reason)]
  }

  function FilesOf(parsed: seq<Parsed>): seq<SourceFile> {
    seq(|parsed|, k requires 0 <= k < |parsed| =>
      SourceFile(SatId(k), parsed[k].input.path, parsed[k].language, |parsed[k].input.source|))
  }

  function ParseErrors(parsed: seq<Parsed>): nat {
    if parsed == [] then 0
    else ParseErrors(parsed[..|parsed| - 1]) + if parsed[|parsed| - 1].facts.parseError then 1 else 0
  }

  predicate AnyDefinitionsCut(parsed: seq<Parsed>) {
    exists k :: 0 <= k < |parsed| && parsed[k].facts.definitionsTruncated
  }

  predicate AnyReferencesCut(parsed: seq<Parsed>) {
    exists k :: 0 <= k < |parsed| && parsed[k].facts.referencesTruncated
  }

  // --- Ids ---

  /** The definitions one file still has room for, numbered on from `start`. */
  function FileDefinitions(file: nat, raws: seq<RawDefinition>, start: nat, room: nat): seq<Definition> {
    var kept := Firsts(raws, room);
    seq(|kept|, j requires 0 <= j < |kept| => Definition(SatId(start + j), file, kept[j]))
  }

  function DefinitionsOf(parsed: seq<Parsed>, most: nat): (r: seq<Definition>)
    ensures |r| <= most
  {
    if parsed == [] then []
    else
      var last, rest := |parsed| - 1, DefinitionsOf(parsed[..|parsed| - 1], most);
      rest + FileDefinitions(SatId(last), parsed[last].facts.definitions, |rest|, most - |rest|)
  }

  predicate DefinitionsOver(parsed: seq<Parsed>, most: nat) {
    parsed != [] &&
    var last := |parsed| - 1;
    DefinitionsOver(parsed[..last], most)
      || |parsed[last].facts.definitions| > most - |DefinitionsOf(parsed[..last], most)|
  }

  lemma {:induction false} NextFile(parsed: seq<Parsed>, most: nat, k: nat)
    requires k < |parsed|
    ensures var rest := DefinitionsOf(parsed[..k], most);
      && DefinitionsOf(parsed[..k + 1], most)
         == rest + FileDefinitions(SatId(k), parsed[k].facts.definitions, |rest|, most - |rest|)
      && DefinitionsOver(parsed[..k + 1], most)
         == (DefinitionsOver(parsed[..k], most) || |parsed[k].facts.definitions| > most - |rest|)
  {
    assert parsed[..k + 1][..k] == parsed[..k];
  }

  /** How many definitions from `from` on belong to the file. */
  function RunLength(definitions: seq<Definition>, from: nat, file: nat): nat
    decreases |definitions| - from
  {
    if from < |definitions| && definitions[from].file == file then 1 + RunLength(definitions, from + 1, file) else 0
  }

  function Base(parsed: seq<Parsed>, most: nat, k: nat): nat
    requires k <= |parsed|
  {
    SatId(|DefinitionsOf(parsed[..k], most)|)
  }

  /** A file's own index of a definition becomes a global id, if that definition was retained. */
  function Globalised(raw: Option<nat>, base: nat, count: nat): Option<nat> {
    if raw.Some? && raw.value < count && base + raw.value <= U32_MAX then Some(base + raw.value) else None
  }

  function LinkOf(file: nat, raw: Reference, base: nat, count: nat): Link {
    Link(file, raw.name, raw.byte, Globalised(raw.enclosing, base, count))
  }

  function FileLinks(file: nat, raws: seq<Reference>, base: nat, count: nat, room: nat): seq<Link> {
    var kept := Firsts(raws, room);
    seq(|kept|, j requires 0 <= j < |kept| => LinkOf(file, kept[j], base, count))
  }

  /** The references of the first `k` files, against the whole table of definitions. */
  function LinksOf(parsed: seq<Parsed>, k: nat, l: Limits): (r: seq<Link>)
    requires k <= |parsed|
    ensures |r| <= l.maxReferences
  {
    if k == 0 then []
    else
      var rest, file := LinksOf(parsed, k - 1, l), SatId(k - 1);
      var base := Base(parsed, l.maxDefinitions, k - 1);
      var count := RunLength(DefinitionsOf(parsed, l.maxDefinitions), base, file);
      rest + FileLinks(file, parsed[k - 1].facts.references, base, count, l.maxReferences - |rest|)
  }

  predicate LinksOver(parsed: seq<Parsed>, k: nat, l: Limits)
    requires k <= |parsed|
  {
    k > 0 && (LinksOver(parsed, k - 1, l)
              || |parsed[k - 1].facts.references| > l.maxReferences - |LinksOf(parsed, k - 1, l)|)
  }

  /** The fact table, from the parsed files alone. */
  function TableOf(parsed: seq<Parsed>, skipped: seq<Skipped>, filesCut: bool, l: Limits): Ingested {
    Ingested(
      FilesOf(parsed), DefinitionsOf(parsed, l.maxDefinitions), LinksOf(parsed, |parsed|, l), skipped,
      ParseErrors(parsed),
      Truncation(filesCut, AnyDefinitionsCut(parsed) || DefinitionsOver(parsed, l.maxDefinitions),
                 AnyReferencesCut(parsed) || LinksOver(parsed, |parsed|, l)))
  }

  function TakenIn(inputs: seq<Input>, l: Limits): seq<Input> { Firsts(Arranged(inputs), l.maxFiles) }

  /** Plain ingest of a set of inputs. */
  function IngestOf(t: Tools, inputs: seq<Input>, l: Limits): Ingested {
    var taken := TakenIn(inputs, l);
    TableOf(ParsedOf(t, l, taken), SkippedOf(t, l, taken), |Arranged(inputs)| > l.maxFiles, l)
  }
}
