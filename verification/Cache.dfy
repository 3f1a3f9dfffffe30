/** The bounded cache of extraction results, keyed by path and validated by content. */
module Cache {
  import opened Wrappers
  import opened Sums
  import opened Sweep
  import opened Merge
  import opened Batch
  import opened CodeFacts

  const DEFINITION_OVERHEAD := 128
  const REFERENCE_OVERHEAD := 64

  function Bytes(s: Option<string>): nat { if s.None? then 0 else |s.value| }

  function DefinitionsWeight(s: seq<RawDefinition>): nat {
    if s == [] then 0
    else DEFINITION_OVERHEAD + |s[0].name| + Bytes(s[0].documentation) + DefinitionsWeight(s[1..])
  }

  function ReferencesWeight(s: seq<Reference>): nat {
    if s == [] then 0 else REFERENCE_OVERHEAD + |s[0].name| + Bytes(s[0].qualifier) + ReferencesWeight(s[1..])
  }

  /** The bytes a result is estimated to retain. */
  function Weigh(facts: FileFacts): nat { DefinitionsWeight(facts.definitions) + ReferencesWeight(facts.references) }

  datatype Entry = Entry(path: string, digest: string, facts: FileFacts, weight: nat)

  /** What is retained, least recently used first, and what the byte account says it weighs. */
  datatype Contents = Contents(entries: seq<Entry>, bytes: nat)

  /** Whatever content has the entry's digest, at the entry's path, extracts to the entry's facts. */
  ghost predicate Backed(t: Tools, e: Entry) {
    && t.languageOf(e.path).Some? && e.weight == Weigh(e.facts)
    && forall s :: t.digest(s) == e.digest ==> Extract(t, s, t.languageOf(e.path).value) == Some(e.facts)
  }

  ghost predicate AllBacked(t: Tools, entries: seq<Entry>) {
    forall i :: 0 <= i < |entries| ==> Backed(t, entries[i])
  }

  ghost predicate DistinctPaths(entries: seq<Entry>) {
    forall i, j :: 0 <= i < j < |entries| ==> entries[i].path != entries[j].path
  }

  function TotalWeight(entries: seq<Entry>): nat {
    if entries == [] then 0 else entries[0].weight + TotalWeight(entries[1..])
  }

  lemma {:induction false} WeightSplits(a: seq<Entry>, b: seq<Entry>)
    ensures TotalWeight(a + b) == TotalWeight(a) + TotalWeight(b)
  {
    if a == [] {
      assert a + b == b;
    } else {
      assert (a + b)[1..] == a[1..] + b;
      WeightSplits(a[1..], b);
    }
  }

  lemma {:induction false} WeightWithout(entries: seq<Entry>, i: nat)
    requires i < |entries|
    ensures TotalWeight(entries) == TotalWeight(entries[..i] + entries[i + 1..]) + entries[i].weight
  {
    assert entries == entries[..i] + [entries[i]] + entries[i + 1..];
    WeightSplits(entries[..i] + [entries[i]], entries[i + 1..]);
    WeightSplits(entries[..i], [entries[i]]);
    WeightSplits(entries[..i], entries[i + 1..]);
  }

  /** What the recency order must satisfy, whatever the order is. */
  ghost predicate Sound(t: Tools, entries: seq<Entry>) {
    AllBacked(t, entries) && DistinctPaths(entries)
  }

  predicate Lacks(entries: seq<Entry>, path: string) {
    forall k :: 0 <= k < |entries| ==> entries[k].path != path
  }

  lemma {:induction false} SoundWithout(t: Tools, entries: seq<Entry>, i: nat)
    requires Sound(t, entries) && i < |entries|
    ensures Sound(t, entries[..i] + entries[i + 1..])
    ensures Lacks(entries[..i] + entries[i + 1..], entries[i].path)
  {
    hide Backed;
    var rest := entries[..i] + entries[i + 1..];
    assert forall k :: 0 <= k < |rest| ==> rest[k] == entries[if k < i then k else k + 1];
  }

  lemma {:induction false} SoundPush(t: Tools, entries: seq<Entry>, e: Entry)
    requires Sound(t, entries) && Backed(t, e) && Lacks(entries, e.path)
    ensures Sound(t, entries + [e])
  {
    hide Backed;
  }

  /** What is cached for one piece of content serves that content and no other. */
  lemma {:induction false} ExtractedIsBacked(t: Tools, item: Item, facts: FileFacts)
    requires Injective(t.digest) && t.languageOf(item.path) == Some(item.language)
    requires Extract(t, item.source, item.language) == Some(facts)
    ensures Backed(t, EntryOf(t, item, facts))
  {
  }

  function EntryOf(t: Tools, item: Item, facts: FileFacts): Entry {
    Entry(item.path, t.digest(item.source), facts, Weigh(facts))
  }

  // --- What each operation makes of the contents ---

  function IndexOf(entries: seq<Entry>, path: string): (at: Option<nat>)
    ensures at.Some? ==> at.value < |entries| && entries[at.value].path == path
    ensures at.None? <==> Lacks(entries, path)
  {
    if entries == [] then None
    else
      var last := |entries| - 1;
      var before := IndexOf(entries[..last], path);
      if before.Some? then before else if entries[last].path == path then Some(last) else None
  }

  function Without(entries: seq<Entry>, i: nat): seq<Entry>
    requires i < |entries|
  {
    entries[..i] + entries[i + 1..]
  }

  /** A lookup makes the path's entry the most recently used, whatever its content. */
  function Promoted(entries: seq<Entry>, path: string): seq<Entry> {
    var at := IndexOf(entries, path);
    if at.None? then entries else Without(entries, at.value) + [entries[at.value]]
  }

  /** The entry serves this content. */
  predicate Retains(entries: seq<Entry>, path: string, digest: string) {
    var at := IndexOf(entries, path);
    at.Some? && entries[at.value].digest == digest
  }

  function Popped(c: Contents, path: string): Contents {
    var at := IndexOf(c.entries, path);
    if at.None? then c else Contents(Without(c.entries, at.value), SatSub(c.bytes, c.entries[at.value].weight))
  }

  /** Room for the path: its old entry goes, and at the entry ceiling the oldest one too, its weight still counted. */
  function Vacated(c: Contents, path: string, maxEntries: nat): Contents
    requires maxEntries > 0
  {
    var p := Popped(c, path);
    if |p.entries| == maxEntries then p.(entries := p.entries[1..]) else p
  }

  function Evicted(c: Contents, maxBytes: nat): Contents
    decreases |c.entries|
  {
    if c.bytes <= maxBytes then c
    else if c.entries == [] then Contents([], 0)
    else Evicted(Contents(c.entries[1..], SatSub(c.bytes, c.entries[0].weight)), maxBytes)
  }

  function Pushed(c: Contents, e: Entry): Contents { Contents(c.entries + [e], c.bytes + e.weight) }

  function Stored(c: Contents, e: Entry, maxEntries: nat, maxBytes: nat): Contents
    requires maxEntries > 0
  {
    Evicted(Pushed(Vacated(c, e.path, maxEntries), e), maxBytes)
  }

  /** The `k` most recently used entries. */
  function Recent(entries: seq<Entry>, k: nat): seq<Entry>
    requires k <= |entries|
  {
    entries[|entries| - k..]
  }

  // --- How far the account overstates what is retained ---

  ghost function Lost(c: Contents): int { c.bytes - TotalWeight(c.entries) }

  predicate Full(c: Contents, path: string, maxEntries: nat) {
    |c.entries| == maxEntries && Lacks(c.entries, path)
  }

  /** The overstatement once room is made: it grows by the oldest entry exactly at a full cache and a new path. */
  ghost function LostBy(c: Contents, path: string, maxEntries: nat): int {
    Lost(c) + if Full(c, path, maxEntries) && c.entries != [] then c.entries[0].weight else 0
  }

  lemma {:induction false} VacatedLoses(c: Contents, path: string, maxEntries: nat)
    requires maxEntries > 0 && |c.entries| <= maxEntries && Lost(c) >= 0
    ensures var v := Vacated(c, path, maxEntries);
      Lost(v) == LostBy(c, path, maxEntries) && |v.entries| < maxEntries && v.bytes <= c.bytes
  {
    var at := IndexOf(c.entries, path);
    if at.Some? { WeightWithout(c.entries, at.value); }
    var p := Popped(c, path);
    if |p.entries| == maxEntries { assert TotalWeight(p.entries) == p.entries[0].weight + TotalWeight(p.entries[1..]); }
  }

  /**
   Eviction keeps the longest recent end that fits beside the overstatement. The overstatement stays, unless
   it passes the ceiling by itself: then nothing is left and the account starts again from zero.
   */
  lemma {:induction false} EvictedExactly(c: Contents, maxBytes: nat)
    requires Lost(c) >= 0
    ensures var r := Evicted(c, maxBytes);
      && LongestFitting(c, maxBytes, |r.entries|) && r.entries == Recent(c.entries, |r.entries|)
      && r.bytes <= maxBytes && Lost(r) == (if Lost(c) <= maxBytes then Lost(c) else 0)
    decreases |c.entries|
  {
    if c.bytes <= maxBytes {
      FitsWhole(c, maxBytes);
    } else if c.entries != [] {
      var d := Contents(c.entries[1..], SatSub(c.bytes, c.entries[0].weight));
      EvictedExactly(d, maxBytes);
      OneShorter(c, d, maxBytes, |Evicted(d, maxBytes).entries|);
    }
  }

  /** `k` entries are the longest recent end that fits beside the overstatement. */
  ghost predicate LongestFitting(c: Contents, maxBytes: nat, k: nat) {
    && k <= |c.entries|
    && forall j :: 0 <= j <= |c.entries| ==>
         (j <= k <==> j == 0 || TotalWeight(Recent(c.entries, j)) + Lost(c) <= maxBytes)
  }

  lemma {:induction false} FitsWhole(c: Contents, maxBytes: nat)
    requires Lost(c) >= 0 && c.bytes <= maxBytes
    ensures LongestFitting(c, maxBytes, |c.entries|) && Recent(c.entries, |c.entries|) == c.entries
  {
    forall k | 0 <= k <= |c.entries| ensures TotalWeight(Recent(c.entries, k)) <= TotalWeight(c.entries) {
      SuffixWeighsLess(c.entries, |c.entries| - k);
    }
  }

  lemma {:induction false} OneShorter(c: Contents, d: Contents, maxBytes: nat, k: nat)
    requires c.entries != [] && c.bytes > maxBytes && d.entries == c.entries[1..] && Lost(d) == Lost(c)
    requires LongestFitting(d, maxBytes, k)
    ensures LongestFitting(c, maxBytes, k) && Recent(d.entries, k) == Recent(c.entries, k)
  {
    var n := |c.entries|;
    assert Recent(c.entries, n) == c.entries;
    forall j | 0 <= j < n ensures Recent(d.entries, j) == Recent(c.entries, j) { }
    hide TotalWeight, Recent;
  }

  lemma {:induction false} SuffixWeighsLess(s: seq<Entry>, i: nat)
    requires i <= |s|
    ensures TotalWeight(s[i..]) <= TotalWeight(s)
  {
    WeightSplits(s[..i], s[i..]);
    assert s == s[..i] + s[i..];
  }

  lemma {:induction false} PushedLosesNothing(c: Contents, e: Entry)
    ensures Lost(Pushed(c, e)) == Lost(c)
  {
    WeightSplits(c.entries, [e]);
    assert TotalWeight([e]) == e.weight;
  }

  /**
   What one store does to the account: the new entry is retained exactly when it fits beside the
   overstatement, and the account is the retained weight exactly when nothing is overstated, or so much
   that everything went.
   */
  lemma {:induction false} StoredExactly(c: Contents, e: Entry, maxEntries: nat, maxBytes: nat)
    requires maxEntries > 0 && |c.entries| <= maxEntries && Lost(c) >= 0
    ensures var r, lost := Stored(c, e, maxEntries, maxBytes), LostBy(c, e.path, maxEntries);
      && |r.entries| <= maxEntries && r.bytes <= maxBytes && lost >= 0
      && Lost(r) == (if lost <= maxBytes then lost else 0)
      && (r.bytes == TotalWeight(r.entries) <==> lost == 0 || lost > maxBytes)
      && (r.entries != [] <==> e.weight + lost <= maxBytes)
      && (r.entries != [] ==> r.entries[|r.entries| - 1] == e)
  {
    var v := Vacated(c, e.path, maxEntries);
    VacatedLoses(c, e.path, maxEntries);
    WeightSplits(v.entries, [e]);
    var p := Pushed(v, e);
    EvictedExactly(p, maxBytes);
    assert Recent(p.entries, 1) == [e];
    assert TotalWeight([e]) == e.weight;
  }

  // --- Soundness through the same operations ---

  lemma {:induction false} PromotedIsSound(t: Tools, entries: seq<Entry>, path: string)
    requires Sound(t, entries)
    ensures Sound(t, Promoted(entries, path)) && |Promoted(entries, path)| == |entries|
    ensures TotalWeight(Promoted(entries, path)) == TotalWeight(entries)
  {
    hide Backed;
    var at := IndexOf(entries, path);
    if at.Some? {
      var i, e := at.value, entries[at.value];
      assert Backed(t, e);
      SoundWithout(t, entries, i);
      WeightWithout(entries, i);
      SoundPush(t, Without(entries, i), e);
      WeightSplits(Without(entries, i), [e]);
    }
  }

  lemma {:induction false} VacatedIsSound(t: Tools, c: Contents, path: string, maxEntries: nat)
    requires Sound(t, c.entries) && maxEntries > 0
    ensures Sound(t, Vacated(c, path, maxEntries).entries) && Lacks(Vacated(c, path, maxEntries).entries, path)
  {
    hide Backed;
    var at := IndexOf(c.entries, path);
    if at.Some? { SoundWithout(t, c.entries, at.value); }
    var p := Popped(c, path);
    if |p.entries| == maxEntries {
      SoundWithout(t, p.entries, 0);
      assert p.entries[..0] + p.entries[1..] == p.entries[1..];
    }
  }

  lemma {:induction false} SuffixIsSound(t: Tools, entries: seq<Entry>, i: nat)
    requires Sound(t, entries) && i <= |entries|
    ensures Sound(t, entries[i..])
  {
    hide Backed;
  }

  lemma {:induction false} StoredIsSound(t: Tools, c: Contents, e: Entry, maxEntries: nat, maxBytes: nat)
    requires Sound(t, c.entries) && Backed(t, e) && maxEntries > 0 && |c.entries| <= maxEntries && Lost(c) >= 0
    ensures Sound(t, Stored(c, e, maxEntries, maxBytes).entries)
  {
    hide Backed, Sound, TotalWeight, IndexOf, Evicted, Lost;
    var v := Vacated(c, e.path, maxEntries);
    VacatedIsSound(t, c, e.path, maxEntries);
    VacatedLoses(c, e.path, maxEntries);
    SoundPush(t, v.entries, e);
    hide Vacated, Popped, Lacks;
    PushedLosesNothing(v, e);
    var p := Pushed(v, e);
    EvictedExactly(p, maxBytes);
    SuffixIsSound(t, p.entries, |p.entries| - |Evicted(p, maxBytes).entries|);
  }

  // --- The cache ---

  class FactsCache {
    const tools: Tools
    const maxEntries: nat
    const maxBytes: nat
    var entries: seq<Entry>
    var bytes: nat
    var hits: nat
    var misses: nat
    var evictions: nat

    ghost function Now(): Contents
      reads this
    {
      Contents(entries, bytes)
    }

    ghost predicate Valid()
      reads this
    {
      && Injective(tools.digest) && maxEntries > 0 && |entries| <= maxEntries
      && Sound(tools, entries) && TotalWeight(entries) <= bytes <= maxBytes
    }

    constructor (tools: Tools, maxEntries: nat, maxBytes: nat)
      requires Injective(tools.digest) && maxEntries > 0
      ensures Valid() && Now() == Contents([], 0)
      ensures this.tools == tools && this.maxEntries == maxEntries && this.maxBytes == maxBytes
    {
      this.tools, this.maxEntries, this.maxBytes := tools, maxEntries, maxBytes;
      entries, bytes, hits, misses, evictions := [], 0, 0, 0, 0;
    }

    method Clear()
      requires Valid()
      modifies this`entries, this`bytes
      ensures Valid() && Now() == Contents([], 0)
    {
      entries, bytes := [], 0;
    }

    /** Looks a path up, which makes its entry the most recently used even when the content has changed. */
    method Probe(path: string, digest: string) returns (hit: Option<FileFacts>)
      requires Valid()
      modifies this`entries
      ensures Valid() && entries == Promoted(old(entries), path)
      ensures hit.Some? <==> Retains(old(entries), path, digest)
      ensures hit.Some? ==> tools.languageOf(path).Some?
      ensures hit.Some? ==>
        forall s :: tools.digest(s) == digest ==> Extract(tools, s, tools.languageOf(path).value) == hit
    {
      hide Injective;
      PromotedIsSound(tools, entries, path);
      var at := IndexOf(entries, path);
      if at.None? { return None; }
      var i, e := at.value, entries[at.value];
      assert Backed(tools, e);
      hide Sound;
      entries := entries[..i] + entries[i + 1..] + [e];
      if e.digest != digest { return None; }
      hit := Some(e.facts);
    }

    /** Drops least recently used entries until the byte ceiling holds again. */
    method EvictToBytes()
      modifies this`entries, this`bytes, this`evictions
      ensures Now() == Evicted(old(Now()), maxBytes)
    {
      while bytes > maxBytes
        invariant Evicted(Now(), maxBytes) == Evicted(old(Now()), maxBytes)
        decreases |entries|, bytes
      {
        if entries == [] {
          bytes := 0;
          break;
        }
        bytes := SatSub(bytes, entries[0].weight);
        entries := entries[1..];
        evictions := evictions + 1;
      }
    }

    /** Retains one result, replacing the path's previous entry, and keeps both ceilings. */
    method Store(item: Item, facts: FileFacts)
      requires Valid() && tools.languageOf(item.path) == Some(item.language)
      requires Extract(tools, item.source, item.language) == Some(facts)
      modifies this`entries, this`bytes, this`evictions
      ensures Valid() && Now() == Stored(old(Now()), EntryOf(tools, item, facts), maxEntries, maxBytes)
      ensures var e, lost := EntryOf(tools, item, facts), LostBy(old(Now()), item.path, maxEntries);
        && Lost(Now()) == (if lost <= maxBytes then lost else 0)
        && (bytes == TotalWeight(entries) <==> lost == 0 || lost > maxBytes)
        && (entries != [] <==> e.weight + lost <= maxBytes)
        && (entries != [] ==> entries[|entries| - 1] == e)
    {
      hide Extract, Injective, Backed, Sound, Evicted, TotalWeight, Vacated, LostBy;
      var e := EntryOf(tools, item, facts);
      ExtractedIsBacked(tools, item, facts);
      StoredExactly(Now(), e, maxEntries, maxBytes);
      StoredIsSound(tools, Now(), e, maxEntries, maxBytes);
      Vacate(item.path);
      entries := entries + [e];
      bytes := bytes + e.weight;
      EvictToBytes();
    }

    /** Takes the path's entry out and, at the entry ceiling, makes `put` drop the oldest. */
    method Vacate(path: string)
      requires maxEntries > 0
      modifies this`entries, this`bytes
      ensures Now() == Vacated(old(Now()), path, maxEntries)
    {
      hide IndexOf;
      var at := IndexOf(entries, path);
      if at.Some? {
        bytes := SatSub(bytes, entries[at.value].weight);
        entries := entries[..at.value] + entries[at.value + 1..];
      }
      if |entries| == maxEntries { entries := entries[1..]; }
    }

    /** One file: exactly what extraction gives, whether it was retained, changed, reverted or evicted. */
    method Facts(item: Item) returns (r: Option<FileFacts>)
      requires Valid() && tools.languageOf(item.path) == Some(item.language)
      modifies this
      ensures Valid() && r == Extract(tools, item.source, item.language)
      ensures var hit := Retains(old(entries), item.path, tools.digest(item.source));
        && hits == old(hits) + (if hit then 1 else 0) && misses == old(misses) + (if hit then 0 else 1)
        && var promoted := Contents(Promoted(old(entries), item.path), old(bytes));
        Now() == if hit || r.None? then promoted
                 else Stored(promoted, EntryOf(tools, item, r.value), maxEntries, maxBytes)
    {
      hide Injective, Backed, Sound, Stored, Promoted, Extract;
      var hit := Probe(item.path, tools.digest(item.source));
      if hit.Some? {
        hits := hits + 1;
        return hit;
      }
      misses := misses + 1;
      r := Extract(tools, item.source, item.language);
      if r.Some? { Store(item, r.value); }
    }

    /** Looks every item up in turn; what is not found is left to extract. */
    method Resolve(items: seq<Item>) returns (resolved: seq<Option<FileFacts>>, missed: seq<nat>)
      requires Valid() && Labelled(tools, items)
      modifies this`entries, this`hits, this`misses
      ensures Valid() && |resolved| == |items|
      ensures entries == PromotedAll(old(entries), items) && missed == MissedOf(tools, old(entries), items)
      ensures forall i :: 0 <= i < |items| && resolved[i].Some? ==> resolved[i] == Cold(tools, items)[i]
      ensures forall i :: 0 <= i < |items| && resolved[i].None? ==> i in missed
      ensures forall k :: 0 <= k < |missed| ==> missed[k] < |items|
    {
      hide Injective, Backed, Sound, Promoted, Retains, Extract;
      resolved, missed := [], [];
      var i := 0;
      while i < |items|
        invariant 0 <= i <= |items| && Valid() && |resolved| == i
        invariant entries == PromotedAll(old(entries), items[..i])
          && missed == MissedOf(tools, old(entries), items[..i])
        invariant forall p :: 0 <= p < i && resolved[p].Some? ==> resolved[p] == Cold(tools, items)[p]
        invariant forall p :: 0 <= p < i && resolved[p].None? ==> p in missed
        invariant forall k :: 0 <= k < |missed| ==> missed[k] < i
      {
        assert items[..i + 1][..i] == items[..i];
        var hit := Probe(items[i].path, tools.digest(items[i].source));
        if hit.Some? {
          hits := hits + 1;
        } else {
          misses := misses + 1;
          missed := missed + [i];
        }
        resolved := resolved + [hit];
        i := i + 1;
      }
      assert items[..i] == items;
    }

    /**
     A whole batch, its misses extracted together by however many workers: position by position what plain
     extraction gives, and the same contents afterwards under every schedule.
     */
    method FactsBatch(items: seq<Item>, parallelism: nat, ceiling: nat, schedule: seq<nat>)
      returns (resolved: seq<Option<FileFacts>>)
      requires Valid() && Labelled(tools, items)
      modifies this
      ensures Valid() && resolved == Cold(tools, items)
      ensures Now() == AfterBatch(tools, old(Now()), items, maxEntries, maxBytes)
    {
      hide Injective, Backed, Sound, Stored, PromotedAll, MissedOf, Extract;
      var missed;
      resolved, missed := Resolve(items);
      ghost var promoted := Now();
      var pending := seq(|missed|, k requires 0 <= k < |missed| && missed[k] < |items| => items[missed[k]]);
      var threads := WorkerThreads(parallelism, ceiling, |pending|);
      var extracted := ExtractBatch(pending, ExtractItem(tools), threads, schedule);
      var k := 0;
      while k < |missed|
        invariant 0 <= k <= |missed| && Valid() && |resolved| == |items|
        invariant Now() == StoredAll(tools, promoted, items, missed[..k], maxEntries, maxBytes)
        invariant forall p :: 0 <= p < |items| && resolved[p].Some? ==> resolved[p] == Cold(tools, items)[p]
        invariant forall p :: 0 <= p < |items| && resolved[p].None? ==>
          p in missed[k..] || Cold(tools, items)[p].None?
      {
        var index, facts := missed[k], extracted[k];
        assert missed[k..] == [index] + missed[k + 1..];
        assert missed[..k + 1][..k] == missed[..k];
        if facts.Some? {
          Store(items[index], facts.value);
          resolved := resolved[index := facts];
        }
        k := k + 1;
      }
      assert missed[..k] == missed;
    }
  }

  function ExtractItem(t: Tools): Item -> Option<FileFacts> { (i: Item) => Extract(t, i.source, i.language) }

  // --- A batch, step by step ---

  function PromotedAll(entries: seq<Entry>, items: seq<Item>): seq<Entry> {
    if items == [] then entries
    else Promoted(PromotedAll(entries, items[..|items| - 1]), items[|items| - 1].path)
  }

  function MissedOf(t: Tools, entries: seq<Entry>, items: seq<Item>): seq<nat> {
    if items == [] then []
    else
      var n := |items| - 1;
      var before, item := MissedOf(t, entries, items[..n]), items[n];
      if Retains(PromotedAll(entries, items[..n]), item.path, t.digest(item.source)) then before else before + [n]
  }

  /** Stores the extractable misses in input order. */
  function StoredAll(t: Tools, c: Contents, items: seq<Item>, missed: seq<nat>, maxEntries: nat, maxBytes: nat)
    : Contents
    requires maxEntries > 0
  {
    if missed == [] then c
    else
      var before, index := StoredAll(t, c, items, missed[..|missed| - 1], maxEntries, maxBytes), missed[|missed| - 1];
      if index >= |items| then before
      else
        var facts := Extract(t, items[index].source, items[index].language);
        if facts.None? then before else Stored(before, EntryOf(t, items[index], facts.value), maxEntries, maxBytes)
  }

  function AfterBatch(t: Tools, c: Contents, items: seq<Item>, maxEntries: nat, maxBytes: nat): Contents
    requires maxEntries > 0
  {
    StoredAll(t, c.(entries := PromotedAll(c.entries, items)), items, MissedOf(t, c.entries, items),
              maxEntries, maxBytes)
  }

  // --- A cache whose account is off ---

  /** Exactly empty facts weigh nothing. */
  lemma {:induction false} OnlyEmptyWeighsNothing(facts: FileFacts)
    ensures Weigh(facts) == 0 <==> facts.definitions == [] && facts.references == []
  {
  }

  lemma {:induction false} FirstStored(e: Entry, maxBytes: nat)
    requires e.weight <= maxBytes
    ensures !Retains([], e.path, e.digest)
    ensures Stored(Contents(Promoted([], e.path), 0), e, 1, maxBytes) == Contents([e], e.weight)
  {
    assert Pushed(Vacated(Contents([], 0), e.path, 1), e) == Contents([e], e.weight);
  }

  lemma {:induction false} SecondStored(d: Entry, e: Entry, maxBytes: nat)
    requires d.path != e.path && d.weight + e.weight <= maxBytes
    ensures !Retains([d], e.path, e.digest)
    ensures Stored(Contents(Promoted([d], e.path), d.weight), e, 1, maxBytes) == Contents([e], d.weight + e.weight)
  {
    var c := Contents([d], d.weight);
    assert IndexOf(c.entries, e.path).None?;
    assert Pushed(Vacated(c, e.path, 1), e) == Contents([e], d.weight + e.weight);
  }

  /**
   Room for one entry and two paths in turn, for any tools and any two files that fit together: the account says
   both, the second is retained. So it is off exactly when the first file has a definition or a reference.
   */
  method OverstatedAccount(tools: Tools, a: Item, b: Item, maxBytes: nat) returns (account: nat, weight: nat)
    requires Injective(tools.digest) && Labelled(tools, [a, b]) && a.path != b.path
    requires Extract(tools, a.source, a.language).Some? && Extract(tools, b.source, b.language).Some?
    requires Weigh(Extract(tools, a.source, a.language).value) + Weigh(Extract(tools, b.source, b.language).value)
      <= maxBytes
    ensures weight == Weigh(Extract(tools, b.source, b.language).value)
    ensures account == Weigh(Extract(tools, a.source, a.language).value) + weight
    ensures account == weight <==>
      var first := Extract(tools, a.source, a.language).value;
      first.definitions == [] && first.references == []
  {
    hide Extract, Stored, Promoted, Retains, Injective, Weigh;
    var cache := new FactsCache(tools, 1, maxBytes);
    ghost var first, second := Extract(tools, a.source, a.language).value, Extract(tools, b.source, b.language).value;
    ghost var d, e := EntryOf(tools, a, first), EntryOf(tools, b, second);
    assert [a, b][0] == a && [a, b][1] == b;
    OnlyEmptyWeighsNothing(first);
    FirstStored(d, maxBytes);
    SecondStored(d, e, maxBytes);
    var _ := cache.Facts(a);
    var _ := cache.Facts(b);
    assert cache.entries == [e] && TotalWeight([e][1..]) == 0;
    account, weight := cache.bytes, TotalWeight(cache.entries);
  }
}
