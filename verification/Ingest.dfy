/** Ingest as the program runs it, cold and through the cache. */
module Ingest {
  import opened Wrappers
  import opened Sorting
  import opened Sweep
  import opened Merge
  import opened CodeFacts
  import opened Batch
  import opened Cache
  import opened IngestModel

  method DedupRuns(s: seq<Input>) returns (kept: seq<Input>)
    ensures kept == Dedup(s)
  {
    kept := Firsts(s, 1);
    var i := |kept|;
    while i < |s|
      invariant i <= |s| && (s != [] ==> i > 0 && kept != []) && kept == Dedup(s[..i])
    {
      assert s[..i + 1][..i] == s[..i];
      if kept[|kept| - 1].path != s[i].path { kept := kept + [s[i]]; }
      i := i + 1;
    }
    assert s[..i] == s;
  }

  /** Sorts by path, keeps the first of each path, and stops at the file ceiling. */
  method Arrange(inputs: seq<Input>, l: Limits) returns (taken: seq<Input>, cut: bool)
    ensures taken == TakenIn(inputs, l) && cut == (|Arranged(inputs)| > l.maxFiles)
  {
    taken := DedupRuns(Sort(BY_PATH, inputs));
    cut := |taken| > l.maxFiles;
    taken := Firsts(taken, l.maxFiles);
  }

  /** Decides, before anything is extracted, which inputs are. */
  method AdmitAll(t: Tools, l: Limits, inputs: seq<Input>) returns (admitted: seq<Admission>, batch: seq<Item>)
    ensures |admitted| == |inputs| && forall i :: 0 <= i < |inputs| ==> admitted[i] == Admit(t, l, inputs[i])
    ensures batch == BatchOf(t, l, inputs)
  {
    admitted, batch := [], [];
    var i := 0;
    while i < |inputs|
      invariant 0 <= i <= |inputs| && |admitted| == i && batch == BatchOf(t, l, inputs[..i])
      invariant forall k :: 0 <= k < i ==> admitted[k] == Admit(t, l, inputs[k])
    {
      assert inputs[..i + 1][..i] == inputs[..i];
      var a := Admit(t, l, inputs[i]);
      admitted := admitted + [a];
      if a.Admitted? { batch := batch + [Item(inputs[i].path, inputs[i].source, a.language)]; }
      i := i + 1;
    }
    assert inputs[..i] == inputs;
  }

  lemma {:induction false} BatchPrefix(t: Tools, l: Limits, inputs: seq<Input>, i: nat)
    requires i <= |inputs|
    ensures BatchOf(t, l, inputs[..i]) <= BatchOf(t, l, inputs)
    decreases |inputs| - i
  {
    if i == |inputs| {
      assert inputs[..i] == inputs;
    } else {
      assert inputs[..i + 1][..i] == inputs[..i];
      BatchPrefix(t, l, inputs, i + 1);
    }
  }

  /** The next unread result of the batch is the one that belongs to the input at hand. */
  lemma {:induction false} NextBelongs(t: Tools, l: Limits, inputs: seq<Input>, i: nat)
    requires i < |inputs| && Admit(t, l, inputs[i]).Admitted?
    ensures var n, batch := |BatchOf(t, l, inputs[..i])|, BatchOf(t, l, inputs);
      && n < |batch| && n + 1 == |BatchOf(t, l, inputs[..i + 1])|
      && batch[n] == Item(inputs[i].path, inputs[i].source, Admit(t, l, inputs[i]).language)
  {
    assert inputs[..i + 1][..i] == inputs[..i];
    BatchPrefix(t, l, inputs, i + 1);
  }

  /** Pairs every admitted input with its extraction by position alone. */
  method PairUp(t: Tools, l: Limits, inputs: seq<Input>, admitted: seq<Admission>, extracted: seq<Option<FileFacts>>)
    returns (parsed: seq<Parsed>, skipped: seq<Skipped>)
    requires |admitted| == |inputs| && forall i :: 0 <= i < |inputs| ==> admitted[i] == Admit(t, l, inputs[i])
    requires extracted == Cold(t, BatchOf(t, l, inputs))
    ensures parsed == ParsedOf(t, l, inputs) && skipped == SkippedOf(t, l, inputs)
  {
    hide BatchOf;
    parsed, skipped := [], [];
    assert inputs[..0] == [];
    BatchOfNone(t, l);
    var i, next := 0, 0;
    while i < |inputs|
      invariant 0 <= i <= |inputs| && next == |BatchOf(t, l, inputs[..i])|
      invariant parsed == ParsedOf(t, l, inputs[..i]) && skipped == SkippedOf(t, l, inputs[..i])
    {
      assert inputs[..i + 1][..i] == inputs[..i];
      match admitted[i] {
        case Rejected(reason) =>
          RejectedAddsNothing(t, l, inputs, i);
          skipped := skipped + [Skipped(inputs[i].path, reason)];
        case Admitted(language) =>
          NextBelongs(t, l, inputs, i);
          var facts := extracted[next];
          next := next + 1;
          if facts.Some? {
            parsed := parsed + [Parsed(inputs[i], language, facts.value)];
          } else {
            skipped := skipped + [Skipped(inputs[i].path, ParserTimeout)];
          }
      }
      i := i + 1;
    }
    assert inputs[..i] == inputs;
  }

  lemma {:induction false} BatchOfNone(t: Tools, l: Limits)
    ensures BatchOf(t, l, []) == []
  {
  }

  lemma {:induction false} RejectedAddsNothing(t: Tools, l: Limits, inputs: seq<Input>, i: nat)
    requires i < |inputs| && Admit(t, l, inputs[i]).Rejected?
    ensures BatchOf(t, l, inputs[..i + 1]) == BatchOf(t, l, inputs[..i])
  {
    assert inputs[..i + 1][..i] == inputs[..i];
  }

  /** Appends one file's definitions until the ceiling. */
  method AppendFile(definitions0: seq<Definition>, file: nat, raws: seq<RawDefinition>, most: nat)
    returns (definitions: seq<Definition>, cut: bool)
    requires |definitions0| <= most
    ensures definitions == definitions0 + FileDefinitions(file, raws, |definitions0|, most - |definitions0|)
    ensures cut == (|raws| > most - |definitions0|)
  {
    definitions, cut := definitions0, false;
    var j := 0;
    while j < |raws|
      invariant 0 <= j <= |raws| && j <= most - |definitions0|
      invariant definitions == definitions0 + FileDefinitions(file, raws, |definitions0|, j)
    {
      if |definitions| >= most {
        cut := true;
        return;
      }
      definitions := definitions + [Definition(SatId(|definitions|), file, raws[j])];
      j := j + 1;
    }
  }

  /** Numbers every definition, file by file. */
  method AssignNodes(parsed: seq<Parsed>, most: nat) returns (definitions: seq<Definition>, bases: seq<nat>, cut: bool)
    ensures definitions == DefinitionsOf(parsed, most) && cut == DefinitionsOver(parsed, most)
    ensures |bases| == |parsed| && forall k :: 0 <= k < |parsed| ==> bases[k] == Base(parsed, most, k)
  {
    definitions, bases, cut := [], [], false;
    var k := 0;
    assert parsed[..0] == [];
    NoFiles(most);
    hide DefinitionsOf, DefinitionsOver, FileDefinitions;
    while k < |parsed|
      invariant 0 <= k <= |parsed| && |bases| == k
      invariant definitions == DefinitionsOf(parsed[..k], most) && cut == DefinitionsOver(parsed[..k], most)
      invariant forall i :: 0 <= i < k ==> bases[i] == Base(parsed, most, i)
    {
      NextFile(parsed, most, k);
      bases := bases + [SatId(|definitions|)];
      var over;
      definitions, over := AppendFile(definitions, SatId(k), parsed[k].facts.definitions, most);
      cut := cut || over;
      k := k + 1;
    }
    assert parsed[..k] == parsed;
  }

  lemma {:induction false} NoFiles(most: nat)
    ensures DefinitionsOf([], most) == [] && !DefinitionsOver([], most)
  {
  }

  /** Counts the definitions from a position on that belong to one file. */
  method CountRun(definitions: seq<Definition>, from: nat, file: nat) returns (n: nat)
    ensures n == RunLength(definitions, from, file)
  {
    n := 0;
    while from + n < |definitions| && definitions[from + n].file == file
      invariant n + RunLength(definitions, from + n, file) == RunLength(definitions, from, file)
      decreases |definitions| - (from + n)
    {
      n := n + 1;
    }
  }

  method AppendLinks(links0: seq<Link>, file: nat, raws: seq<Reference>, base: nat, count: nat, most: nat)
    returns (links: seq<Link>, cut: bool)
    requires |links0| <= most
    ensures links == links0 + FileLinks(file, raws, base, count, most - |links0|)
    ensures cut == (|raws| > most - |links0|)
  {
    links, cut := links0, false;
    var j := 0;
    while j < |raws|
      invariant 0 <= j <= |raws| && j <= most - |links0|
      invariant links == links0 + FileLinks(file, raws, base, count, j)
    {
      if |links| >= most {
        cut := true;
        return;
      }
      links := links + [LinkOf(file, raws[j], base, count)];
      j := j + 1;
    }
  }

  /** Attributes every reference through its file's base and run. */
  method LinkAll(parsed: seq<Parsed>, definitions: seq<Definition>, bases: seq<nat>, l: Limits)
    returns (links: seq<Link>, cut: bool)
    requires definitions == DefinitionsOf(parsed, l.maxDefinitions)
    requires |bases| == |parsed| && forall k :: 0 <= k < |parsed| ==> bases[k] == Base(parsed, l.maxDefinitions, k)
    ensures links == LinksOf(parsed, |parsed|, l) && cut == LinksOver(parsed, |parsed|, l)
  {
    hide DefinitionsOf, Base, FileLinks;
    links, cut := [], false;
    var k := 0;
    while k < |parsed|
      invariant 0 <= k <= |parsed| && links == LinksOf(parsed, k, l) && cut == LinksOver(parsed, k, l)
    {
      var count := CountRun(definitions, bases[k], SatId(k));
      var over;
      links, over := AppendLinks(links, SatId(k), parsed[k].facts.references, bases[k], count, l.maxReferences);
      cut := cut || over;
      k := k + 1;
    }
  }

  /** Collects the file list and the per-file flags. */
  method ListFiles(parsed: seq<Parsed>)
    returns (files: seq<SourceFile>, errors: nat, definitionsCut: bool, referencesCut: bool)
    ensures files == FilesOf(parsed) && errors == ParseErrors(parsed)
    ensures definitionsCut == AnyDefinitionsCut(parsed) && referencesCut == AnyReferencesCut(parsed)
  {
    files, errors, definitionsCut, referencesCut := [], 0, false, false;
    var k := 0;
    while k < |parsed|
      invariant 0 <= k <= |parsed| && files == FilesOf(parsed[..k]) && errors == ParseErrors(parsed[..k])
      invariant definitionsCut == AnyDefinitionsCut(parsed[..k]) && referencesCut == AnyReferencesCut(parsed[..k])
    {
      var p := parsed[k];
      assert parsed[..k + 1] == parsed[..k] + [p] && parsed[..k + 1][..k] == parsed[..k];
      CutPush(parsed[..k], p);
      if p.facts.parseError { errors := errors + 1; }
      definitionsCut := definitionsCut || p.facts.definitionsTruncated;
      referencesCut := referencesCut || p.facts.referencesTruncated;
      files := files + [SourceFile(SatId(|files|), p.input.path, p.language, |p.input.source|)];
      k := k + 1;
    }
    assert parsed[..k] == parsed;
  }

  lemma {:induction false} CutPush(parsed: seq<Parsed>, p: Parsed)
    ensures AnyDefinitionsCut(parsed + [p]) <==> AnyDefinitionsCut(parsed) || p.facts.definitionsTruncated
    ensures AnyReferencesCut(parsed + [p]) <==> AnyReferencesCut(parsed) || p.facts.referencesTruncated
  {
    var all := parsed + [p];
    assert all[|parsed|] == p;
    if AnyDefinitionsCut(parsed) {
      var k :| 0 <= k < |parsed| && parsed[k].facts.definitionsTruncated;
      assert all[k].facts.definitionsTruncated;
    }
    if AnyReferencesCut(parsed) {
      var k :| 0 <= k < |parsed| && parsed[k].facts.referencesTruncated;
      assert all[k].facts.referencesTruncated;
    }
  }

  method Tabulate(parsed: seq<Parsed>, skipped: seq<Skipped>, filesCut: bool, l: Limits) returns (r: Ingested)
    ensures r == TableOf(parsed, skipped, filesCut, l)
  {
    hide DefinitionsOf, LinksOf, Base, AnyDefinitionsCut, AnyReferencesCut, LinksOver, DefinitionsOver;
    var files, errors, dCut, rCut := ListFiles(parsed);
    var definitions, bases, dOver := AssignNodes(parsed, l.maxDefinitions);
    var links, lOver := LinkAll(parsed, definitions, bases, l);
    r := Ingested(files, definitions, links, skipped, errors, Truncation(filesCut, dCut || dOver, rCut || lOver));
  }

  /** The host's worker ceiling, what the machine allows, and the order in which the workers happen to act. */
  datatype Workers = Workers(ceiling: nat, parallelism: nat, schedule: seq<nat>)

  /** Cold ingest, by however many workers in whatever order. */
  method IngestCold(t: Tools, inputs: seq<Input>, l: Limits, w: Workers) returns (r: Ingested)
    ensures r == IngestOf(t, inputs, l)
  {
    hide TableOf, ParsedOf, SkippedOf, Arranged, BatchOf, Extract;
    var taken, cut := Arrange(inputs, l);
    var admitted, batch := AdmitAll(t, l, taken);
    var threads := WorkerThreads(w.parallelism, w.ceiling, |batch|);
    var extracted := ExtractBatch(batch, ExtractItem(t), threads, w.schedule);
    assert extracted == Cold(t, batch);
    var parsed, skipped := PairUp(t, l, taken, admitted, extracted);
    r := Tabulate(parsed, skipped, cut, l);
  }

  /** Ingest through a cache in any valid state, by however many workers, gives what cold ingest gives. */
  method IngestCached(cache: FactsCache, inputs: seq<Input>, l: Limits, w: Workers) returns (r: Ingested)
    requires cache.Valid()
    modifies cache
    ensures cache.Valid() && r == IngestOf(cache.tools, inputs, l)
    ensures cache.Now() == AfterBatch(cache.tools, old(cache.Now()),
      BatchOf(cache.tools, l, TakenIn(inputs, l)), cache.maxEntries, cache.maxBytes)
  {
    hide TableOf, ParsedOf, SkippedOf, Arranged, BatchOf, FactsCache.Valid, AfterBatch, Extract;
    var taken, cut := Arrange(inputs, l);
    var admitted, batch := AdmitAll(cache.tools, l, taken);
    BatchIsLabelled(cache.tools, l, taken);
    var extracted := cache.FactsBatch(batch, w.parallelism, w.ceiling, w.schedule);
    var parsed, skipped := PairUp(cache.tools, l, taken, admitted, extracted);
    r := Tabulate(parsed, skipped, cut, l);
  }

  datatype Call = Call(inputs: seq<Input>, limits: Limits, workers: Workers)

  /** A whole session on one cache: files change, come back, are evicted, and every table is the cold one. */
  method IngestSession(t: Tools, calls: seq<Call>, maxEntries: nat, maxBytes: nat) returns (tables: seq<Ingested>)
    requires Injective(t.digest) && maxEntries > 0
    ensures |tables| == |calls|
    ensures forall i :: 0 <= i < |calls| ==> tables[i] == IngestOf(t, calls[i].inputs, calls[i].limits)
  {
    hide IngestOf, FactsCache.Valid, AfterBatch;
    var cache := new FactsCache(t, maxEntries, maxBytes);
    tables := [];
    var i := 0;
    while i < |calls|
      invariant 0 <= i <= |calls| && |tables| == i && cache.Valid() && cache.tools == t && fresh(cache)
      invariant forall k :: 0 <= k < i ==> tables[k] == IngestOf(t, calls[k].inputs, calls[k].limits)
    {
      var table := IngestCached(cache, calls[i].inputs, calls[i].limits, calls[i].workers);
      tables := tables + [table];
      i := i + 1;
    }
  }
}
