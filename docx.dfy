/**
 * `DocxTextExtractor`: the text of a .docx package, read part by part from
 * the WordprocessingML XML. The zip archive is a map from entry names to the
 * node sequences an `XmlReader` yields for them (comments and processing
 * instructions already dropped); a missing entry is a missing key.
 */
module DocxTextExtractor {
  import opened Chars
  import opened Text

  const WordprocessingMlNamespace := "http://schemas.openxmlformats.org/wordprocessingml/2006/main"

  /**
   * One node of the reader. An `Element` is a start tag; when it is a `w:t`,
   * the event stands for the whole element and `content` is what
   * `ReadElementContentAsString` returns for it. `Other` is any other node
   * (text, white space, declarations).
   */
  datatype XmlNode =
    | Element(localName: string, namespaceUri: string, content: string)
    | EndElement(localName: string, namespaceUri: string)
    | Other

  predicate IsWordElement(localName: string, namespaceUri: string, name: string) {
    localName == name && namespaceUri == WordprocessingMlNamespace
  }

  /** Appends a line break unless the buffer is empty or already ends with one. */
  function EndLine(builder: string): (r: string)
    ensures r == builder || r == builder + "\n"
  {
    if |builder| > 0 && builder[|builder| - 1] != '\n' then builder + "\n" else builder
  }

  /**
   * The buffer after `AppendWordXmlText` reads `nodes`. A `w:t` appends its
   * content; the reader then already stands on the node after the element,
   * and the loop's next `Read` passes over that node unexamined. `w:tab`
   * appends a tab, `w:br` and `w:cr` a line break, and the end of a `w:p`
   * ends the current line. Everything else, and every element outside the
   * WordprocessingML namespace, is ignored.
   */
  function Feed(builder: string, nodes: seq<XmlNode>): string
    decreases |nodes|
  {
    if nodes == [] then builder
    else match nodes[0]
      case Element(localName, namespaceUri, content) =>
        if IsWordElement(localName, namespaceUri, "t") then
          Feed(builder + content, if |nodes| >= 2 then nodes[2..] else [])
        else if IsWordElement(localName, namespaceUri, "tab") then
          Feed(builder + "\t", nodes[1..])
        else if IsWordElement(localName, namespaceUri, "br") || IsWordElement(localName, namespaceUri, "cr") then
          Feed(builder + "\n", nodes[1..])
        else
          Feed(builder, nodes[1..])
      case EndElement(localName, namespaceUri) =>
        Feed(if IsWordElement(localName, namespaceUri, "p") then EndLine(builder) else builder, nodes[1..])
      case Other =>
        Feed(builder, nodes[1..])
  }

  method AppendWordXmlText(nodes: seq<XmlNode>, builder: string) returns (result: string)
    ensures result == Feed(builder, nodes)
  {
    result := builder;
    var i := 0;
    while i < |nodes|
      invariant 0 <= i <= |nodes|
      invariant Feed(result, nodes[i..]) == Feed(builder, nodes)
    {
      assert nodes[i..][0] == nodes[i] && nodes[i..][1..] == nodes[i + 1..];
      var next := i + 1;
      match nodes[i] {
        case Element(localName, namespaceUri, content) =>
          if IsWordElement(localName, namespaceUri, "t") {
            if content != [] {
              result := result + content;
            } else {
              assert result + content == result;
            }
            if i + 2 <= |nodes| {
              assert nodes[i..][2..] == nodes[i + 2..];
              next := i + 2;
            } else {
              next := |nodes|;
            }
          } else if IsWordElement(localName, namespaceUri, "tab") {
            result := result + "\t";
          } else if IsWordElement(localName, namespaceUri, "br") || IsWordElement(localName, namespaceUri, "cr") {
            result := result + "\n";
          }
        case EndElement(localName, namespaceUri) =>
          if IsWordElement(localName, namespaceUri, "p") && |result| > 0 && result[|result| - 1] != '\n' {
            result := result + "\n";
          }
        case Other =>
      }
      i := next;
    }
  }

  /** The buffer after `AppendPartTextIfPresent`: a present part's text, then its line ended. */
  function PartText(archive: map<string, seq<XmlNode>>, entryName: string, builder: string): string {
    if entryName !in archive then builder else EndLine(Feed(builder, archive[entryName]))
  }

  method AppendPartTextIfPresent(archive: map<string, seq<XmlNode>>, entryName: string, builder: string)
    returns (result: string)
    ensures result == PartText(archive, entryName, builder)
  {
    if entryName !in archive {
      return builder;
    }
    result := AppendWordXmlText(archive[entryName], builder);
    if |result| > 0 && result[|result| - 1] != '\n' {
      result := result + "\n";
    }
  }

  /** The buffer once the document, its footnotes and its endnotes have been read, in that order. */
  function PackageText(archive: map<string, seq<XmlNode>>): string {
    PartText(archive, "word/endnotes.xml",
      PartText(archive, "word/footnotes.xml",
        PartText(archive, "word/document.xml", "")))
  }

  /** What `ExtractTextAsync` returns. */
  function ExtractedText(archive: map<string, seq<XmlNode>>): string {
    Trim(ReplaceLineEndings(PackageText(archive)))
  }

  method ExtractText(archive: map<string, seq<XmlNode>>) returns (text: string)
    ensures text == ExtractedText(archive)
  {
    var builder := "";
    builder := AppendPartTextIfPresent(archive, "word/document.xml", builder);
    builder := AppendPartTextIfPresent(archive, "word/footnotes.xml", builder);
    builder := AppendPartTextIfPresent(archive, "word/endnotes.xml", builder);
    text := Trim(ReplaceLineEndings(builder));
  }

  /** Reading only appends to the buffer. */
  lemma {:induction false} FeedExtends(builder: string, nodes: seq<XmlNode>)
    ensures StartsWith(Feed(builder, nodes), builder)
    decreases |nodes|
  {
    if nodes != [] {
      match nodes[0]
      case Element(localName, namespaceUri, content) =>
        var b := if IsWordElement(localName, namespaceUri, "t") then builder + content
          else if IsWordElement(localName, namespaceUri, "tab") then builder + "\t"
          else if IsWordElement(localName, namespaceUri, "br") || IsWordElement(localName, namespaceUri, "cr") then builder + "\n"
          else builder;
        var rest := if IsWordElement(localName, namespaceUri, "t") && |nodes| >= 2 then nodes[2..]
          else if IsWordElement(localName, namespaceUri, "t") then [] else nodes[1..];
        FeedExtends(b, rest);
        assert Feed(builder, nodes) == Feed(b, rest);
        assert b[..|builder|] == builder;
      case EndElement(localName, namespaceUri) =>
        var b := if IsWordElement(localName, namespaceUri, "p") then EndLine(builder) else builder;
        FeedExtends(b, nodes[1..]);
        assert b[..|builder|] == builder;
      case Other =>
        FeedExtends(builder, nodes[1..]);
    }
  }

  /** Nodes outside the WordprocessingML namespace leave the buffer as it is. */
  lemma {:induction false} ForeignNodesIgnored(builder: string, nodes: seq<XmlNode>)
    requires forall k | 0 <= k < |nodes| :: !nodes[k].Other? ==> nodes[k].namespaceUri != WordprocessingMlNamespace
    ensures Feed(builder, nodes) == builder
    decreases |nodes|
  {
    if nodes != [] {
      ForeignNodesIgnored(builder, nodes[1..]);
    }
  }

  /** A line break sequence `\n\n`: a blank line inside the text. */
  predicate HasBlankLine(s: string) {
    exists i | 0 <= i < |s| - 1 :: s[i] == '\n' && s[i + 1] == '\n'
  }

  /**
   * Ending a line never creates a blank line, leaves an empty buffer empty,
   * and leaves a non-empty buffer ending with a line break.
   */
  lemma EndLineFacts(builder: string)
    ensures !HasBlankLine(builder) ==> !HasBlankLine(EndLine(builder))
    ensures builder == [] ==> EndLine(builder) == []
    ensures builder != [] ==> EndLine(builder)[|EndLine(builder)| - 1] == '\n'
  {
    var r := EndLine(builder);
    if !HasBlankLine(builder) && r != builder {
      forall i | 0 <= i < |r| - 1 ensures !(r[i] == '\n' && r[i + 1] == '\n') {
        if i + 1 < |builder| {
          assert r[i] == builder[i] && r[i + 1] == builder[i + 1];
        }
      }
    }
  }

  /** Paragraph ends and texts without line breaks never produce a blank line. */
  predicate IsParagraphEndOrPlainText(n: XmlNode) {
    || (n.EndElement?)
    || (n.Element? && IsWordElement(n.localName, n.namespaceUri, "t") && '\n' !in n.content)
    || (n.Element? && !IsWordElement(n.localName, n.namespaceUri, "br") && !IsWordElement(n.localName, n.namespaceUri, "cr")
        && !IsWordElement(n.localName, n.namespaceUri, "t"))
    || n.Other?
  }

  /** A part made of paragraphs of plain runs never holds a blank line: paragraph ends alone do not create one. */
  lemma {:induction false} NoBlankLinesFromParagraphEnds(builder: string, nodes: seq<XmlNode>)
    requires !HasBlankLine(builder)
    requires forall k | 0 <= k < |nodes| :: IsParagraphEndOrPlainText(nodes[k])
    ensures !HasBlankLine(Feed(builder, nodes))
    decreases |nodes|
  {
    if nodes != [] {
      match nodes[0]
      case Element(localName, namespaceUri, content) =>
        if IsWordElement(localName, namespaceUri, "t") {
          AppendPlainText(builder, content);
          var rest := if |nodes| >= 2 then nodes[2..] else [];
          assert forall k | 0 <= k < |rest| :: rest[k] == nodes[k + 2];
          NoBlankLinesFromParagraphEnds(builder + content, rest);
        } else if IsWordElement(localName, namespaceUri, "tab") {
          AppendPlainText(builder, "\t");
          NoBlankLinesFromParagraphEnds(builder + "\t", nodes[1..]);
        } else {
          NoBlankLinesFromParagraphEnds(builder, nodes[1..]);
        }
      case EndElement(localName, namespaceUri) =>
        EndLineFacts(builder);
        NoBlankLinesFromParagraphEnds(if IsWordElement(localName, namespaceUri, "p") then EndLine(builder) else builder, nodes[1..]);
      case Other =>
        NoBlankLinesFromParagraphEnds(builder, nodes[1..]);
    }
  }

  lemma AppendPlainText(builder: string, text: string)
    requires !HasBlankLine(builder) && '\n' !in text
    ensures !HasBlankLine(builder + text)
  {
    var r := builder + text;
    forall i | 0 <= i < |r| - 1 ensures !(r[i] == '\n' && r[i + 1] == '\n') {
      if i + 1 < |builder| {
        assert r[i] == builder[i] && r[i + 1] == builder[i + 1];
      } else if i + 1 >= |builder| {
        assert r[i + 1] == text[i + 1 - |builder|];
      }
    }
  }

  /** A present part leaves a non-empty buffer ending with a line break; a missing part changes nothing. */
  lemma PartTextFacts(archive: map<string, seq<XmlNode>>, entryName: string, builder: string)
    ensures entryName !in archive ==> PartText(archive, entryName, builder) == builder
    ensures entryName in archive ==>
      var r := PartText(archive, entryName, builder);
      StartsWith(r, builder) && (r != [] ==> r[|r| - 1] == '\n')
  {
    if entryName in archive {
      var fed := Feed(builder, archive[entryName]);
      FeedExtends(builder, archive[entryName]);
      EndLineFacts(fed);
      assert EndLine(fed)[..|builder|] == fed[..|builder|];
    }
  }

  /** The document's text comes first, then the footnotes', then the endnotes'. */
  lemma PackageTextOrder(archive: map<string, seq<XmlNode>>)
    ensures var document := PartText(archive, "word/document.xml", "");
      var footnotes := PartText(archive, "word/footnotes.xml", document);
      && StartsWith(footnotes, document)
      && StartsWith(PackageText(archive), footnotes)
  {
    var document := PartText(archive, "word/document.xml", "");
    var footnotes := PartText(archive, "word/footnotes.xml", document);
    PartTextFacts(archive, "word/footnotes.xml", document);
    PartTextFacts(archive, "word/endnotes.xml", footnotes);
  }

  /**
   * The extracted text has no white space at either end and uses `\n` as its
   * only line ending; a package with none of the three parts gives "".
   */
  lemma ExtractedTextFacts(archive: map<string, seq<XmlNode>>)
    ensures IsTrimmed(ExtractedText(archive))
    ensures forall i | 0 <= i < |ExtractedText(archive)| :: IsLineEnding(ExtractedText(archive)[i]) ==> ExtractedText(archive)[i] == '\n'
    ensures "word/document.xml" !in archive && "word/footnotes.xml" !in archive && "word/endnotes.xml" !in archive
      ==> ExtractedText(archive) == ""
  {
    var replaced := ReplaceLineEndings(PackageText(archive));
    TrimKeepsOnlyNewlines(replaced);
    if "word/document.xml" !in archive && "word/footnotes.xml" !in archive && "word/endnotes.xml" !in archive {
      assert PackageText(archive) == "";
    }
  }

  /** Trimming a string whose only line ending is `\n` gives a trimmed string whose only line ending is `\n`. */
  lemma TrimKeepsOnlyNewlines(s: string)
    requires forall i | 0 <= i < |s| :: IsLineEnding(s[i]) ==> s[i] == '\n'
    ensures IsTrimmed(Trim(s))
    ensures forall i | 0 <= i < |Trim(s)| :: IsLineEnding(Trim(s)[i]) ==> Trim(s)[i] == '\n'
  {
    TrimIsTrimmedInfix(s);
    var o := TrimOffset(s);
    forall i | 0 <= i < |Trim(s)| ensures IsLineEnding(Trim(s)[i]) ==> Trim(s)[i] == '\n' {
      assert Trim(s)[i] == s[o + i];
    }
  }

  /** A run `<w:r>` holding one child node. */
  function Run(child: XmlNode): seq<XmlNode> {
    [Element("r", WordprocessingMlNamespace, ""), child, EndElement("r", WordprocessingMlNamespace)]
  }

  function TextNode(content: string): XmlNode {
    Element("t", WordprocessingMlNamespace, content)
  }

  function Empty(name: string): XmlNode {
    Element(name, WordprocessingMlNamespace, "")
  }

  /** A paragraph `<w:p>` of runs. */
  function Paragraph(runs: seq<XmlNode>): seq<XmlNode> {
    [Empty("p")] + runs + [EndElement("p", WordprocessingMlNamespace)]
  }

  /** A run of text appends it; the skipped node is the run's own end tag. */
  lemma FeedTextRun(builder: string, content: string, rest: seq<XmlNode>)
    ensures Feed(builder, Run(TextNode(content)) + rest) == Feed(builder + content, rest)
  {
    var nodes := Run(TextNode(content)) + rest;
    assert nodes[0] == Empty("r") && nodes[1..][0] == TextNode(content);
    assert Feed(builder, nodes) == Feed(builder, nodes[1..]);
    assert nodes[1..][2..] == rest;
  }

  lemma FeedEmptyRun(builder: string, name: string, rest: seq<XmlNode>)
    requires name == "tab" || name == "br"
    ensures Feed(builder, Run(Empty(name)) + rest) == Feed(builder + (if name == "tab" then "\t" else "\n"), rest)
  {
    var nodes := Run(Empty(name)) + rest;
    var appended := builder + (if name == "tab" then "\t" else "\n");
    assert nodes[0] == Empty("r") && nodes[1..][0] == Empty(name);
    assert nodes[1..][1..][0] == EndElement("r", WordprocessingMlNamespace);
    assert nodes[1..][1..][1..] == rest;
    assert Feed(builder, nodes) == Feed(builder, nodes[1..]);
    assert Feed(builder, nodes[1..]) == Feed(appended, nodes[1..][1..]);
    assert Feed(appended, nodes[1..][1..]) == Feed(appended, rest);
  }

  lemma FeedParagraphEnd(builder: string, rest: seq<XmlNode>)
    ensures Feed(builder, [EndElement("p", WordprocessingMlNamespace)] + rest) == Feed(EndLine(builder), rest)
  {
    assert ([EndElement("p", WordprocessingMlNamespace)] + rest)[1..] == rest;
  }

  /** A paragraph of runs feeds its runs and then ends the line. */
  lemma FeedParagraph(builder: string, runs: seq<XmlNode>, rest: seq<XmlNode>)
    ensures Feed(builder, Paragraph(runs) + rest) == Feed(builder, runs + ([EndElement("p", WordprocessingMlNamespace)] + rest))
  {
    var nodes := Paragraph(runs) + rest;
    assert nodes[0] == Empty("p");
    assert nodes[1..] == runs + ([EndElement("p", WordprocessingMlNamespace)] + rest);
  }

  /** A package holding only the main document part. */
  lemma DocumentOnly(nodes: seq<XmlNode>)
    ensures ExtractedText(map["word/document.xml" := nodes]) == Trim(ReplaceLineEndings(EndLine(Feed("", nodes))))
  {
    var archive := map["word/document.xml" := nodes];
    assert "word/footnotes.xml" != "word/document.xml";
    assert "word/endnotes.xml" != "word/document.xml";
    assert "word/footnotes.xml" !in archive && "word/endnotes.xml" !in archive;
  }

  /** A main document that feeds one trimmed text and a final line break extracts to that text. */
  lemma ExtractedFromFeed(nodes: seq<XmlNode>, t: string)
    requires t != [] && IsTrimmed(t)
    requires forall i | 0 <= i < |t| :: IsLineEnding(t[i]) ==> t[i] == '\n'
    requires Feed("", nodes) == t + "\n"
    ensures ExtractedText(map["word/document.xml" := nodes]) == t
  {
    DocumentOnly(nodes);
    var fed := t + "\n";
    assert EndLine(fed) == fed;
    forall i | 0 <= i < |fed| ensures IsLineEnding(fed[i]) ==> fed[i] == '\n' {
      if i < |t| {
        assert fed[i] == t[i];
      }
    }
    ReplaceLineEndingsOfLf(fed);
    TrimDropsFinalLf(t);
  }

  function TwoParagraphsPart(): seq<XmlNode> {
    Paragraph(Run(TextNode("Привет"))) + Paragraph(Run(TextNode("мир")))
  }

  lemma FeedTwoParagraphs()
    ensures Feed("", TwoParagraphsPart()) == "Привет\nмир\n"
  {
    var second := Paragraph(Run(TextNode("мир")));
    var end := [EndElement("p", WordprocessingMlNamespace)];
    FeedParagraph("", Run(TextNode("Привет")), second);
    FeedTextRun("", "Привет", end + second);
    FeedParagraphEnd("Привет", second);
    assert second == second + [];
    FeedParagraph("Привет\n", Run(TextNode("мир")), []);
    FeedTextRun("Привет\n", "мир", end + []);
    FeedParagraphEnd("Привет\nмир", []);
    assert "" + "Привет" == "Привет" && EndLine("Привет") == "Привет\n";
    assert "Привет\n" + "мир" == "Привет\nмир" && EndLine("Привет\nмир") == "Привет\nмир\n";
  }

  /** Two paragraphs "Привет" and "мир" give their texts on two lines. */
  lemma TwoParagraphs()
    ensures ExtractedText(map["word/document.xml" := TwoParagraphsPart()]) == "Привет\nмир"
  {
    FeedTwoParagraphs();
    ExtractedFromFeed(TwoParagraphsPart(), "Привет\nмир");
  }

  function TabsAndBreaksPart(): seq<XmlNode> {
    Paragraph(Run(TextNode("A")) + Run(Empty("tab")) + Run(TextNode("B")) + Run(Empty("br")) + Run(TextNode("C")))
  }

  lemma FeedTabsAndBreaks()
    ensures Feed("", TabsAndBreaksPart()) == "A\tB\nC\n"
  {
    var end := [EndElement("p", WordprocessingMlNamespace)];
    var runs := Run(TextNode("A")) + Run(Empty("tab")) + Run(TextNode("B")) + Run(Empty("br")) + Run(TextNode("C"));
    assert Paragraph(runs) == Paragraph(runs) + [];
    FeedParagraph("", runs, []);
    assert runs + (end + []) == Run(TextNode("A")) + (Run(Empty("tab")) + (Run(TextNode("B")) + (Run(Empty("br")) + (Run(TextNode("C")) + end))));
    FeedTextRun("", "A", Run(Empty("tab")) + (Run(TextNode("B")) + (Run(Empty("br")) + (Run(TextNode("C")) + end))));
    FeedEmptyRun("A", "tab", Run(TextNode("B")) + (Run(Empty("br")) + (Run(TextNode("C")) + end)));
    FeedTextRun("A\t", "B", Run(Empty("br")) + (Run(TextNode("C")) + end));
    FeedEmptyRun("A\tB", "br", Run(TextNode("C")) + end);
    FeedTextRun("A\tB\n", "C", end);
    assert end == end + [];
    FeedParagraphEnd("A\tB\nC", []);
    assert "" + "A" == "A" && "A" + "\t" == "A\t" && "A\t" + "B" == "A\tB";
    assert "A\tB" + "\n" == "A\tB\n" && "A\tB\n" + "C" == "A\tB\nC" && EndLine("A\tB\nC") == "A\tB\nC\n";
  }

  /** Text, tab, text, break, text in separate runs give "A\tB\nC". */
  lemma TabsAndBreaks()
    ensures ExtractedText(map["word/document.xml" := TabsAndBreaksPart()]) == "A\tB\nC"
  {
    FeedTabsAndBreaks();
    ExtractedFromFeed(TabsAndBreaksPart(), "A\tB\nC");
  }

  /** A break in the same run as the text before it is the node passed over, so it is lost. */
  lemma BreakAfterTextInOneRunIsLost()
    ensures Feed("", [TextNode("A"), Empty("br"), TextNode("B")]) == "AB"
  {
    assert [TextNode("A"), Empty("br"), TextNode("B")][2..] == [TextNode("B")];
  }
}
