/** What extraction yields for one file, and the tools that are taken as given. */
module CodeFacts {
  import opened Wrappers
  import opened Sorting
  import opened Sweep
  import opened Merge

  datatype FileFacts = FileFacts(
    definitions: seq<RawDefinition>, references: seq<Reference>,
    parseError: bool, definitionsTruncated: bool, referencesTruncated: bool)

  type Language = nat

  /** What the queries capture in one parsed file, in no particular order. */
  datatype Captures = Captures(
    definitions: seq<RawDefinition>, references: seq<Reference>,
    parseError: bool, definitionsTruncated: bool, referencesTruncated: bool)

  /** Capturing under limits fixed for good, the content digest, and the language of a path. */
  datatype Tools = Tools(
    capture: (string, Language) -> Option<Captures>, digest: string -> string, languageOf: string -> Option<Language>)

  /** Captures become facts: merge the definitions, then attribute the references to them. */
  function FactsOf(c: Captures): FileFacts {
    var definitions := Merged(c.definitions);
    FileFacts(definitions, Attributed(SpansOf(definitions), c.references),
              c.parseError, c.definitionsTruncated, c.referencesTruncated)
  }

  function Extract(t: Tools, source: string, language: Language): Option<FileFacts> {
    var c := t.capture(source, language);
    if c.None? then None else Some(FactsOf(c.value))
  }

  method ExtractFrom(c: Captures) returns (facts: FileFacts)
    ensures facts == FactsOf(c)
  {
    hide Attributed, Merged;
    var definitions := MergeDefinitions(c.definitions);
    MergedInOrder(c.definitions);
    var references := new Reference[|c.references|](i requires 0 <= i < |c.references| => c.references[i]);
    assert references[..] == c.references;
    Attribute(SpansOf(definitions), references);
    facts := FileFacts(definitions, references[..], c.parseError, c.definitionsTruncated, c.referencesTruncated);
  }

  /** Whatever was captured: definitions in id order, and each reference at the last of them that holds its byte. */
  lemma {:induction false} ExtractedInOrder(t: Tools, source: string, language: Language)
    requires Extract(t, source, language).Some?
    ensures InOrder(Extract(t, source, language).value.definitions)
  {
    hide Merged, Attributed;
    MergedInOrder(t.capture(source, language).value.definitions);
  }

  datatype Item = Item(path: string, source: string, language: Language)

  ghost predicate Injective(digest: string -> string) {
    forall a, b :: digest(a) == digest(b) ==> a == b
  }

  /** What plain extraction gives for each item. */
  function Cold(t: Tools, items: seq<Item>): seq<Option<FileFacts>> {
    seq(|items|, i requires 0 <= i < |items| => Extract(t, items[i].source, items[i].language))
  }

  /** The language of an item is that of its path. */
  predicate Labelled(t: Tools, items: seq<Item>) {
    forall i :: 0 <= i < |items| ==> t.languageOf(items[i].path) == Some(items[i].language)
  }
}
