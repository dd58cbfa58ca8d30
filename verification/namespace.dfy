/**
 `createNamespace` (src/create-namespace.ts): wraps declarations in a
 `declare namespace` block. The output directory is a parameter, and the
 file is returned rather than written.
 */
module Namespace {
  import opened Text
  import opened Types

  /** `declare namespace N { ` */
  function Opening(nsName: string): string {
    "declare namespace " + nsName + " { "
  }

  const Closing := " }"

  /** The declarations, one per line. */
  const Separator := "\n"

  /** `createNamespace(content, nsName)`: the file `<outputDir>/<nsName>.d.ts` and its text. */
  function CreateNamespace(contents: seq<string>, nsName: string, outputDir: string): (r: OutputFile)
    ensures r.path == outputDir + "/" + nsName + ".d.ts"
    ensures StartsWith(r.text, Opening(nsName)) && EndsWith(r.text, Closing)
    ensures |contents| == 0 ==> r.text == "declare namespace " + nsName + " {  }"
    ensures |contents| == 1 ==> r.text == Opening(nsName) + contents[0] + Closing
  {
    var text := Opening(nsName) + Join(contents, Separator) + Closing;
    assert text[..|Opening(nsName)|] == Opening(nsName);
    assert text[|text| - |Closing|..] == Closing;
    OutputFile(outputDir + "/" + nsName + ".d.ts", text)
  }

  /**
   Every declaration appears at its own place: after the opening, the
   declarations before it and one line break per predecessor.
   */
  lemma ContentsInPlace(contents: seq<string>, nsName: string, outputDir: string, i: nat)
    requires i < |contents|
    ensures OccursAt(CreateNamespace(contents, nsName, outputDir).text, contents[i],
                     |Opening(nsName)| + TotalLength(contents[..i]) + i)
  {
    var body := Join(contents, Separator);
    JoinOffset(contents, Separator, i);
    OccursShift(Opening(nsName), body + Closing, contents[i], TotalLength(contents[..i]) + i);
    assert body[TotalLength(contents[..i]) + i..TotalLength(contents[..i]) + i + |contents[i]|]
        == (body + Closing)[TotalLength(contents[..i]) + i..TotalLength(contents[..i]) + i + |contents[i]|];
    assert Opening(nsName) + (body + Closing) == CreateNamespace(contents, nsName, outputDir).text;
  }

  /** Nothing but the declarations and the line breaks between them is added. */
  lemma TextLength(contents: seq<string>, nsName: string, outputDir: string)
    requires |contents| >= 1
    ensures |CreateNamespace(contents, nsName, outputDir).text|
         == |Opening(nsName)| + TotalLength(contents) + (|contents| - 1) + |Closing|
  {
    JoinLength(contents, Separator);
  }

  /** Two groups of declarations, one after the other, are separated by a single line break. */
  lemma GroupsInOrder(xs: seq<string>, ys: seq<string>, nsName: string, outputDir: string)
    requires |xs| >= 1 && |ys| >= 1
    ensures CreateNamespace(xs + ys, nsName, outputDir).text
         == Opening(nsName) + Join(xs, Separator) + Separator + Join(ys, Separator) + Closing
  {
    JoinAppend(xs, ys, Separator);
  }
}
