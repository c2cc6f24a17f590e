/** Chunk formatting: each document the markdown header splitter returns becomes
    one chunk whose first lines name the headers it sits under. */
module Chunker {
  import opened Common

  /** One document of the header splitter: the headers above it, keyed by
      "section" (#), "scheme" (##) and "subsection" (###), and its text. */
  datatype Document = Document(metadata: map<string, string>, pageContent: string)

  /** The context line for one header level, present only when that key is. */
  function HeaderLine(metadata: map<string, string>, key: string, caption: string): (r: seq<string>)
    ensures key in metadata <==> |r| == 1
    ensures key in metadata ==> r[0] == caption + ": " + metadata[key]
  {
    if key in metadata then [caption + ": " + metadata[key]] else []
  }

  /** The context lines of a document, outermost header first. */
  function ContextParts(metadata: map<string, string>): seq<string> {
    HeaderLine(metadata, "section", "Section")
    + HeaderLine(metadata, "scheme", "Scheme")
    + HeaderLine(metadata, "subsection", "Subsection")
  }

  predicate HasHeading(metadata: map<string, string>) {
    "section" in metadata || "scheme" in metadata || "subsection" in metadata
  }

  /** The chunk for one document. */
  function FormatChunk(d: Document): string {
    var parts := ContextParts(d.metadata);
    if parts != [] then Join(parts, "\n") + "\n\n" + d.pageContent else d.pageContent
  }

  /** The conditional appends that build the context lines. */
  method BuildContextParts(metadata: map<string, string>) returns (parts: seq<string>)
    ensures parts == ContextParts(metadata)
  {
    assert "Section" + ": " == "Section: " && "Scheme" + ": " == "Scheme: " && "Subsection" + ": " == "Subsection: ";
    parts := [];
    if "section" in metadata {
      parts := parts + ["Section: " + metadata["section"]];
    }
    assert parts == HeaderLine(metadata, "section", "Section");
    if "scheme" in metadata {
      parts := parts + ["Scheme: " + metadata["scheme"]];
    }
    assert parts == HeaderLine(metadata, "section", "Section") + HeaderLine(metadata, "scheme", "Scheme");
    if "subsection" in metadata {
      parts := parts + ["Subsection: " + metadata["subsection"]];
    }
  }

  /** The body of `chunk_markdown`'s loop for one document. */
  method FormatDocument(d: Document) returns (fullContent: string)
    ensures fullContent == FormatChunk(d)
  {
    var contextParts := BuildContextParts(d.metadata);
    if contextParts != [] {
      fullContent := Join(contextParts, "\n") + "\n\n" + d.pageContent;
    } else {
      fullContent := d.pageContent;
    }
  }

  /** The loop of `chunk_markdown` over the splitter's documents. */
  method ChunkDocuments(docs: seq<Document>) returns (chunks: seq<string>)
    ensures chunks == Map(FormatChunk, docs)
  {
    chunks := [];
    var k := 0;
    while k < |docs|
      invariant 0 <= k <= |docs|
      invariant chunks == Map(FormatChunk, docs[..k])
    {
      var fullContent := FormatDocument(docs[k]);
      MapPrefixStep(FormatChunk, docs, k);
      chunks := chunks + [fullContent];
      k := k + 1;
    }
    assert docs[..k] == docs;
  }

  // ---------------------------------------------------------------------
  // Properties of the chunk layout
  // ---------------------------------------------------------------------

  /** One line per header key present, so none exactly when no key is present. */
  lemma ContextPartsCount(metadata: map<string, string>)
    ensures |ContextParts(metadata)| ==
      (if "section" in metadata then 1 else 0)
      + (if "scheme" in metadata then 1 else 0)
      + (if "subsection" in metadata then 1 else 0)
    ensures ContextParts(metadata) == [] <==> !HasHeading(metadata)
  {
  }

  /** Without any header key the chunk is the page content itself. */
  lemma ChunkWithoutHeadings(d: Document)
    requires !HasHeading(d.metadata)
    ensures FormatChunk(d) == d.pageContent
  {
    ContextPartsCount(d.metadata);
  }

  /** The page content always ends the chunk. */
  lemma ContentIsSuffix(d: Document)
    ensures EndsWith(FormatChunk(d), d.pageContent)
  {
    var c := FormatChunk(d);
    if ContextParts(d.metadata) != [] {
      var pre := Join(ContextParts(d.metadata), "\n") + "\n\n";
      assert c == pre + d.pageContent;
      assert c[|c| - |d.pageContent|..] == d.pageContent;
    }
  }

  /** With a header key present the chunk opens with the context block and a blank line. */
  lemma ChunkWithHeadings(d: Document)
    requires HasHeading(d.metadata)
    ensures StartsWith(FormatChunk(d), Join(ContextParts(d.metadata), "\n") + "\n\n")
    ensures StartsWith(FormatChunk(d), ContextParts(d.metadata)[0])
  {
    ContextPartsCount(d.metadata);
    var parts := ContextParts(d.metadata);
    var pre := Join(parts, "\n") + "\n\n";
    assert FormatChunk(d) == pre + d.pageContent;
    assert FormatChunk(d)[..|pre|] == pre;
    JoinStartsWithFirst(parts, "\n");
    assert pre[..|parts[0]|] == parts[0];
  }

  lemma {:induction false} JoinStartsWithFirst(parts: seq<string>, sep: string)
    requires parts != []
    ensures StartsWith(Join(parts, sep), parts[0])
  {
    if |parts| > 1 {
      assert Join(parts, sep) == parts[0] + (sep + Join(parts[1..], sep));
    }
  }

  /** Which line stands in each position: Section, then Scheme, then Subsection,
      each exactly when its key is present. */
  lemma ContextPartsOrder(metadata: map<string, string>)
    ensures var parts := ContextParts(metadata);
      var s := if "section" in metadata then 1 else 0;
      var t := s + (if "scheme" in metadata then 1 else 0);
      && ("section" in metadata ==> parts[0] == "Section: " + metadata["section"])
      && ("scheme" in metadata ==> parts[s] == "Scheme: " + metadata["scheme"])
      && ("subsection" in metadata ==> t < |parts| && parts[t] == "Subsection: " + metadata["subsection"])
  {
    assert "Section" + ": " == "Section: " && "Scheme" + ": " == "Scheme: " && "Subsection" + ": " == "Subsection: ";
    var a := HeaderLine(metadata, "section", "Section");
    var b := HeaderLine(metadata, "scheme", "Scheme");
    var c := HeaderLine(metadata, "subsection", "Subsection");
    assert ContextParts(metadata) == a + b + c;
    if "section" in metadata {
      assert (a + b + c)[0] == a[0];
    }
    if "scheme" in metadata {
      assert (a + b + c)[|a|] == b[0];
    }
    if "subsection" in metadata {
      assert (a + b + c)[|a| + |b|] == c[0];
    }
  }

  /** When no header value spans lines, splitting the context block on newlines
      gives back exactly the context lines. */
  lemma ContextBlockReadsBack(metadata: map<string, string>)
    requires HasHeading(metadata)
    requires forall key :: key in metadata ==> '\n' !in metadata[key]
    ensures Split(Join(ContextParts(metadata), "\n"), '\n') == ContextParts(metadata)
  {
    var parts := ContextParts(metadata);
    ContextPartsCount(metadata);
    forall k | 0 <= k < |parts|
      ensures '\n' !in parts[k]
    {
      ContextPartsOrder(metadata);
      NoNewlineInLine(metadata, "section", "Section");
      NoNewlineInLine(metadata, "scheme", "Scheme");
      NoNewlineInLine(metadata, "subsection", "Subsection");
    }
    assert "\n" == ['\n'];
    SplitJoin(parts, '\n');
  }

  lemma NoNewlineInLine(metadata: map<string, string>, key: string, caption: string)
    requires '\n' !in caption
    requires key in metadata ==> '\n' !in metadata[key]
    ensures forall line :: line in HeaderLine(metadata, key, caption) ==> '\n' !in line
  {
  }
}
