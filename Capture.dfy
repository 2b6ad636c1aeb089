/**
  `build_prompt`: the CAPTURE template. The inputs are a dictionary from field names
  to text; a field that is missing is rendered as Python renders `None`.
 */
module Capture {
  import opened Text

  const Header := "Create a prompt using the CAPTURE formula:"

  /** The dictionary keys read by the template, in the order of its lines. */
  const Fields: seq<string> := ["context", "audience", "purpose", "tone", "use_case", "relevance", "examples"]

  /** The label each of those lines carries. */
  const Labels: seq<string> := ["Context", "Audience", "Purpose", "Tone", "Use case", "Relevance", "Examples"]

  /** `f"{inputs.get(key)}"`. */
  function Lookup(inputs: map<string, string>, key: string): string {
    if key in inputs then inputs[key] else "None"
  }

  /** The start of a field's line, up to and including the space before the value. */
  function Tag(name: string): string {
    "- " + name + ": "
  }

  /** `f"- {name}: {value}"`. */
  function FieldLine(name: string, value: string): string {
    Tag(name) + value
  }

  /** The header and the six field lines that precede the examples line. */
  function HeadLines(inputs: map<string, string>): (lines: seq<string>)
    ensures |lines| == 7
  {
    [ Header,
      FieldLine("Context", Lookup(inputs, "context")),
      FieldLine("Audience", Lookup(inputs, "audience")),
      FieldLine("Purpose", Lookup(inputs, "purpose")),
      FieldLine("Tone", Lookup(inputs, "tone")),
      FieldLine("Use case", Lookup(inputs, "use_case")),
      FieldLine("Relevance", Lookup(inputs, "relevance")) ]
  }

  /** The lines of the f-string: the header, then one line per field. */
  function TemplateLines(inputs: map<string, string>): (lines: seq<string>)
    ensures |lines| == 8
  {
    HeadLines(inputs) + [FieldLine("Examples", Lookup(inputs, "examples"))]
  }

  /** The f-string before stripping: it opens and closes with a newline. */
  function Template(inputs: map<string, string>): (r: string)
    ensures |r| >= 2 && r[0] == '\n' && r[|r| - 1] == '\n'
  {
    "\n" + Join(TemplateLines(inputs), '\n') + "\n"
  }

  /** `build_prompt(inputs)`: the template, stripped. */
  function BuildPrompt(inputs: map<string, string>): (r: string)
    ensures NoEdgeSpace(r)
  {
    Strip(Template(inputs))
  }

  /** The examples line once the final strip has taken the trailing whitespace off the
      examples value, and with it the space after the colon if nothing is left. */
  function ExamplesLine(examples: string): string {
    var e := RStrip(examples);
    if e == "" then "- Examples:" else FieldLine("Examples", e)
  }

  lemma ExamplesTagTrimmed()
    ensures var t := Tag("Examples"); |t| == 12 && t[..11] == "- Examples:" && t[11] == ' ' && t[10] == ':'
  {
  }

  /** Right-stripping a last line `tag + value`, where the tag ends in one space after
      a non-space: only the trailing whitespace of the value goes, and the tag's space
      too if nothing of the value is left. */
  lemma RStripTagged(head: string, tag: string, value: string)
    requires |tag| >= 2 && tag[|tag| - 1] == ' ' && !IsSpace(tag[|tag| - 2])
    ensures RStrip(head + "\n" + tag + value) ==
      head + "\n" + if RStrip(value) == "" then tag[..|tag| - 1] else tag + RStrip(value)
  {
    var prefix := head + "\n" + tag;
    RStripConcat(prefix, value);
    if RStrip(value) == "" {
      var j := |prefix| - 1;
      assert prefix[j - 1] == tag[|tag| - 2];
      assert prefix[j] == tag[|tag| - 1];
      RStripUnique(prefix, j);
      assert prefix[..j] == head + "\n" + tag[..|tag| - 1];
    } else {
      assert prefix + RStrip(value) == head + "\n" + (tag + RStrip(value));
    }
  }

  /** A trailing newline is whitespace that `rstrip` removes. */
  lemma RStripNewline(x: string)
    ensures RStrip(x + "\n") == RStrip(x)
  {
    RStripConcat(x, "\n");
    assert RStrip("\n") == "";
  }

  /** Stripping newline-framed lines whose first line starts with a non-space leaves
      only the right end of the last line to strip. */
  lemma StripFramed(first: seq<string>, last: string)
    requires first != [] && first[0] != [] && !IsSpace(first[0][0])
    ensures Strip("\n" + Join(first + [last], '\n') + "\n") == RStrip(Join(first, '\n') + "\n" + last)
  {
    var head := Join(first, '\n');
    var body := head + "\n" + last;
    JoinAppend(first, last, '\n');
    assert "\n" + Join(first + [last], '\n') + "\n" == "\n" + (body + "\n");
    assert head[0] == first[0][0] by {
      if |first| > 1 { assert head == first[0] + "\n" + Join(first[1..], '\n'); }
    }
    assert (body + "\n")[0] == head[0];
    assert AllSpace("\n");
    StripAnchored("\n", body + "\n");
    RStripNewline(body);
  }

  /** Right-stripping the lines when the last one is the examples line. */
  lemma RStripExamples(first: seq<string>, ex: string)
    requires first != []
    ensures RStrip(Join(first, '\n') + "\n" + (Tag("Examples") + ex)) == Join(first + [ExamplesLine(ex)], '\n')
  {
    var head := Join(first, '\n');
    var tag := Tag("Examples");
    assert head + "\n" + (tag + ex) == head + "\n" + tag + ex;
    ExamplesTagTrimmed();
    RStripTagged(head, tag, ex);
    JoinAppend(first, ExamplesLine(ex), '\n');
  }

  /** The template with the examples line as its last line, stripped. */
  lemma StripFramedLines(first: seq<string>, ex: string)
    requires first != [] && first[0] != [] && !IsSpace(first[0][0])
    ensures Strip("\n" + Join(first + [Tag("Examples") + ex], '\n') + "\n") == Join(first + [ExamplesLine(ex)], '\n')
  {
    StripFramed(first, Tag("Examples") + ex);
    RStripExamples(first, ex);
  }

  /** What the final strip does: it removes the leading newline, the trailing newline
      and the trailing whitespace of the examples value, and nothing else. */
  lemma BuildPromptShape(inputs: map<string, string>)
    ensures BuildPrompt(inputs) == Join(HeadLines(inputs) + [ExamplesLine(Lookup(inputs, "examples"))], '\n')
  {
    assert HeadLines(inputs)[0][0] == 'C';
    StripFramedLines(HeadLines(inputs), Lookup(inputs, "examples"));
  }

  /** A field's line holds no newline unless its label or value does. */
  lemma FieldLineSingle(name: string, value: string)
    requires '\n' !in name && '\n' !in value
    ensures '\n' !in FieldLine(name, value)
  {
    assert FieldLine(name, value) == "- " + name + ": " + value;
  }

  /** No head line holds a newline unless a value does. */
  lemma HeadLinesSingle(inputs: map<string, string>)
    requires forall i :: 0 <= i < |Fields| ==> '\n' !in Lookup(inputs, Fields[i])
    ensures SeparatorFree(HeadLines(inputs), '\n')
  {
    assert '\n' !in Header;
    assert Fields[0] == "context" && Fields[1] == "audience" && Fields[2] == "purpose";
    assert Fields[3] == "tone" && Fields[4] == "use_case" && Fields[5] == "relevance";
    FieldLineSingle("Context", Lookup(inputs, Fields[0]));
    FieldLineSingle("Audience", Lookup(inputs, Fields[1]));
    FieldLineSingle("Purpose", Lookup(inputs, Fields[2]));
    FieldLineSingle("Tone", Lookup(inputs, Fields[3]));
    FieldLineSingle("Use case", Lookup(inputs, Fields[4]));
    FieldLineSingle("Relevance", Lookup(inputs, Fields[5]));
  }

  /** The examples line holds no newline unless the examples value does. */
  lemma ExamplesLineSingle(ex: string)
    requires '\n' !in ex
    ensures '\n' !in ExamplesLine(ex)
  {
    var e := RStrip(ex);
    assert e == ex[..|e|];
    if e != "" { FieldLineSingle("Examples", e); }
  }

  /** The prompt is the header followed by seven lines, those of the template: one per
      field in the order Context, Audience, Purpose, Tone, Use case, Relevance, Examples,
      each holding its field's value (or "None"), except that the examples value has
      lost its trailing whitespace. This holds whenever no value holds a newline. */
  lemma PromptLines(inputs: map<string, string>)
    requires forall i :: 0 <= i < |Fields| ==> '\n' !in Lookup(inputs, Fields[i])
    ensures Split(BuildPrompt(inputs), '\n')
      == HeadLines(inputs) + [ExamplesLine(Lookup(inputs, "examples"))]
  {
    var head := HeadLines(inputs);
    var last := ExamplesLine(Lookup(inputs, "examples"));
    BuildPromptShape(inputs);
    HeadLinesSingle(inputs);
    assert Fields[6] == "examples";
    ExamplesLineSingle(Lookup(inputs, Fields[6]));
    assert SeparatorFree(head + [last], '\n') by {
      forall i | 0 <= i < |head| + 1 ensures '\n' !in (head + [last])[i] {
        if i < |head| { assert (head + [last])[i] == head[i]; }
      }
    }
    SplitJoin(head + [last], '\n');
  }

  /** The template's field lines carry the labels in order, each followed by the value
      of its key, or "None" when the key is missing. */
  lemma TemplateLabels(inputs: map<string, string>)
    ensures forall k :: 0 <= k < 7 ==>
      TemplateLines(inputs)[k + 1] == FieldLine(Labels[k], if Fields[k] in inputs then inputs[Fields[k]] else "None")
  {
  }

  /** The result begins with the header line and has no whitespace at either end. */
  lemma PromptHeader(inputs: map<string, string>)
    ensures var r := BuildPrompt(inputs);
      |Header| <= |r| && r[..|Header|] == Header && NoEdgeSpace(r)
  {
    var parts := HeadLines(inputs) + [ExamplesLine(Lookup(inputs, "examples"))];
    BuildPromptShape(inputs);
    assert Join(parts, '\n') == Header + ['\n'] + Join(parts[1..], '\n');
  }

  /** Keys other than the seven fields do not affect the prompt. */
  lemma OtherKeysIgnored(a: map<string, string>, b: map<string, string>)
    requires forall i :: 0 <= i < |Fields| ==> Lookup(a, Fields[i]) == Lookup(b, Fields[i])
    ensures BuildPrompt(a) == BuildPrompt(b)
  {
    assert TemplateLines(a) == TemplateLines(b) by {
      assert Lookup(a, Fields[0]) == Lookup(b, Fields[0]);
      assert Lookup(a, Fields[1]) == Lookup(b, Fields[1]);
      assert Lookup(a, Fields[2]) == Lookup(b, Fields[2]);
      assert Lookup(a, Fields[3]) == Lookup(b, Fields[3]);
      assert Lookup(a, Fields[4]) == Lookup(b, Fields[4]);
      assert Lookup(a, Fields[5]) == Lookup(b, Fields[5]);
      assert Lookup(a, Fields[6]) == Lookup(b, Fields[6]);
    }
  }
}
