/** The pure labelling helpers of the chat window: the file icon and type name taken
    from the extension after the last dot, and the display name of a generated output. */
module Display {
  import opened Base
  import opened Text
  import opened Model

  /** `name.split(".").pop()`: what follows the last dot, or the whole name. */
  function AfterLastDot(name: string): (r: string)
    ensures '.' !in r
    ensures |r| <= |name| && r == name[|name| - |r|..]
    ensures '.' !in name <==> r == name
    ensures '.' in name ==> name[|name| - |r| - 1] == '.'
  {
    match LastIndexOf(name, '.')
    case None => name
    case Some(i) => name[i + 1..]
  }

  /** The lower-cased extension the icon and the type name are chosen by. */
  function Extension(name: string): string {
    ToLower(AfterLastDot(name))
  }

  const PdfIcon := "\U{1F4C4}"
  const MarkdownIcon := "\U{1F4DD}"
  const WordIcon := "\U{1F4C3}"
  const OtherIcon := "\U{1F4CE}"

  function FileIcon(f: FileRef): (r: string)
    ensures r == PdfIcon <==> Extension(f.name) == "pdf"
    ensures r == MarkdownIcon <==> Extension(f.name) in {"md", "markdown"}
    ensures r == WordIcon <==> Extension(f.name) in {"doc", "docx"}
    ensures r == OtherIcon <==> Extension(f.name) !in {"pdf", "md", "markdown", "doc", "docx"}
  {
    var ext := Extension(f.name);
    if ext == "pdf" then PdfIcon
    else if ext == "md" || ext == "markdown" then MarkdownIcon
    else if ext == "doc" || ext == "docx" then WordIcon
    else OtherIcon
  }

  /** The type name: known extensions first, then the file's MIME type if truthy. */
  function FileTypeName(f: FileRef): (r: string)
    ensures Extension(f.name) == "pdf" ==> r == "PDF Document"
    ensures Extension(f.name) in {"md", "markdown"} ==> r == "Markdown"
    ensures Extension(f.name) in {"doc", "docx"} ==> r == "Word Document"
    ensures Extension(f.name) in {"ppt", "pptx"} ==> r == "PowerPoint"
    ensures Extension(f.name) !in {"pdf", "md", "markdown", "doc", "docx", "ppt", "pptx"} ==>
              r == if f.fileType != "" then f.fileType else "Document"
  {
    var ext := Extension(f.name);
    if ext == "pdf" then "PDF Document"
    else if ext == "md" || ext == "markdown" then "Markdown"
    else if ext == "doc" then "Word Document"
    else if ext == "docx" then "Word Document"
    else if ext == "ppt" || ext == "pptx" then "PowerPoint"
    else if f.fileType != "" then f.fileType
    else "Document"
  }

  lemma LowerKeepsDots(s: string)
    ensures forall k :: 0 <= k < |s| ==> (ToLower(s)[k] == '.' <==> s[k] == '.')
  {
  }

  lemma {:induction false} LowerTwice(s: string)
    ensures ToLower(ToLower(s)) == ToLower(s)
  {
    var once := ToLower(s);
    assert forall k :: 0 <= k < |s| ==> LowerChar(once[k]) == once[k];
  }

  lemma LowerLastDot(s: string)
    ensures LastIndexOf(ToLower(s), '.') == LastIndexOf(s, '.')
  {
    var low := ToLower(s);
    LowerKeepsDots(s);
    var a := LastIndexOf(s, '.');
    var b := LastIndexOf(low, '.');
    if a.Some? {
      assert low[a.value] == '.';
    }
    if b.Some? {
      assert s[b.value] == '.';
    }
  }

  /** Lower-casing commutes with taking a suffix. */
  lemma LowerSuffix(s: string, i: nat)
    requires i <= |s|
    ensures ToLower(s)[i..] == ToLower(s[i..])
  {
    assert forall k :: 0 <= k < |s| - i ==> ToLower(s)[i..][k] == LowerChar(s[i..][k]);
  }

  /** A name in capitals gets the same icon and type name as in lower case. */
  lemma ExtensionIgnoresCase(name: string)
    ensures Extension(ToLower(name)) == Extension(name)
  {
    var low := ToLower(name);
    LowerLastDot(name);
    match LastIndexOf(name, '.')
    case None =>
      assert AfterLastDot(low) == low && AfterLastDot(name) == name;
      LowerTwice(name);
    case Some(i) =>
      assert AfterLastDot(low) == low[i + 1..] && AfterLastDot(name) == name[i + 1..];
      LowerSuffix(name, i + 1);
      LowerTwice(name[i + 1..]);
  }

  // ---------------------------------------------------------------- /\.[^/.]+$/

  /** At `i` starts a dot followed by at least one character and no '/' or '.' up to the end. */
  predicate ExtensionAt(name: string, i: int) {
    0 <= i < |name| - 1 && name[i] == '.' && forall k :: i < k < |name| ==> name[k] != '/' && name[k] != '.'
  }

  /** `name.replace(/\.[^/.]+$/, "")`: drop the final extension when there is one. */
  function StripExtension(name: string): (r: string)
    ensures |r| <= |name| && r == name[..|r|]
    ensures (exists i :: ExtensionAt(name, i)) ==> ExtensionAt(name, |r|)
    ensures !(exists i :: ExtensionAt(name, i)) ==> r == name
  {
    match LastIndexOf(name, '.')
    case None => name
    case Some(i) =>
      if i < |name| - 1 && '/' !in name[i + 1..] then
        assert ExtensionAt(name, i) by {
          forall k | i < k < |name| ensures name[k] != '/' {
            assert name[k] == name[i + 1..][k - i - 1];
          }
        }
        name[..i]
      else
        assert forall j :: !ExtensionAt(name, j) by {
          forall j | 0 <= j < |name| - 1 && name[j] == '.'
            ensures !(forall k :: j < k < |name| ==> name[k] != '/' && name[k] != '.')
          {
            if j < i {
              assert name[i] == '.';
            } else {
              assert j == i;
              if i < |name| - 1 {
                var k :| 0 <= k < |name[i + 1..]| && name[i + 1..][k] == '/';
                assert name[i + 1 + k] == '/';
              }
            }
          }
        }
        name
  }

  /** Only the last dot can start the extension the pattern removes. */
  lemma ExtensionAtUnique(name: string, i: int, j: int)
    requires ExtensionAt(name, i) && ExtensionAt(name, j)
    ensures i == j
  {
  }

  // ---------------------------------------------------------------- getOutputDisplayName

  /** "Slides" for output type `slides` or `ppt`, otherwise "Poster". */
  function TypeLabel(outputType: string): string {
    if outputType == "slides" || outputType == "ppt" then "Slides" else "Poster"
  }

  /** The trailing part: the length for `slides`, the density for `poster`; nothing
      for any other type, `ppt` included. */
  function SizePart(o: GeneratedOutput): seq<string> {
    if o.outputType == "slides" && Present(o.length) then [o.length.value]
    else if o.outputType == "poster" && Present(o.density) then [o.density.value]
    else []
  }

  /** The parts in order: type label, first source file without extension, style,
      content, then the size part. An empty style or content adds no part; the file
      part is added whenever there is a source file, even when it strips to "". */
  function DisplayParts(o: GeneratedOutput): (r: seq<string>)
    ensures r != [] && r[0] == TypeLabel(o.outputType)
  {
    [TypeLabel(o.outputType)]
    + (if |o.sourceFiles| > 0 then [StripExtension(o.sourceFiles[0])] else [])
    + (if o.style != "" then [o.style] else [])
    + (if o.content != "" then [o.content] else [])
    + SizePart(o)
  }

  /** "Slides/Poster - FileName - style - content - length/density"; the name always
      starts with the type label. */
  function OutputDisplayName(o: GeneratedOutput): (r: string)
    ensures TypeLabel(o.outputType) <= r
  {
    Join(DisplayParts(o), " - ")
  }

  /** With every part present the name has all five, in the documented order. */
  lemma DisplayNameAllParts(o: GeneratedOutput)
    requires o.outputType in {"slides", "poster"} && |o.sourceFiles| > 0 && o.style != "" && o.content != ""
    requires if o.outputType == "slides" then Present(o.length) else Present(o.density)
    ensures var size := if o.outputType == "slides" then o.length.value else o.density.value;
      OutputDisplayName(o)
        == TypeLabel(o.outputType) + " - " + StripExtension(o.sourceFiles[0]) + " - " + o.style
           + " - " + o.content + " - " + size
  {
    var size := if o.outputType == "slides" then o.length.value else o.density.value;
    var parts := DisplayParts(o);
    assert parts == [TypeLabel(o.outputType), StripExtension(o.sourceFiles[0]), o.style, o.content, size];
    JoinFive(TypeLabel(o.outputType), StripExtension(o.sourceFiles[0]), o.style, o.content, size, " - ");
  }

  /** An empty style and content add no part: only the label, the file and the size
      remain. */
  lemma BlankStyleAndContentSkipped(o: GeneratedOutput)
    requires o.outputType == "slides" && |o.sourceFiles| > 0 && o.style == "" && o.content == ""
    requires Present(o.length)
    ensures OutputDisplayName(o) == "Slides - " + StripExtension(o.sourceFiles[0]) + " - " + o.length.value
  {
    var parts := DisplayParts(o);
    assert parts == ["Slides", StripExtension(o.sourceFiles[0]), o.length.value];
    JoinThree("Slides", StripExtension(o.sourceFiles[0]), o.length.value, " - ");
  }

  /** A source file whose name is all extension still adds its (empty) part. */
  lemma ExtensionOnlyFileKeepsPart(o: GeneratedOutput)
    requires o.outputType == "ppt" && o.sourceFiles == [".pdf"] && o.style == "" && o.content == ""
    ensures OutputDisplayName(o) == "Slides - "
  {
    assert ExtensionAt(".pdf", 0);
    assert StripExtension(".pdf") == "";
    assert DisplayParts(o) == ["Slides", ""];
  }

  /** A `ppt` output is labelled Slides yet its length and density never appear. */
  lemma PptIgnoresLength(o: GeneratedOutput, length: Option<string>, density: Option<string>)
    requires o.outputType == "ppt"
    ensures TypeLabel(o.outputType) == "Slides"
    ensures OutputDisplayName(o) == OutputDisplayName(o.(length := length, density := density))
  {
  }

  /** A `slides` output with a truthy length ends with " - " and that length. */
  lemma SlidesEndWithLength(o: GeneratedOutput)
    requires o.outputType == "slides" && Present(o.length)
    ensures OutputDisplayName(o) == Join(DisplayParts(o)[..|DisplayParts(o)| - 1], " - ") + " - " + o.length.value
  {
    var parts := DisplayParts(o);
    var init := parts[..|parts| - 1];
    assert parts == init + [o.length.value];
    JoinSnoc(init, o.length.value, " - ");
  }
}
