/**
  `Tester::Javascript`: a mocha-style `describe` block with one `it` per
  example, each asserting with `assertEqual`, closed by a footer line. It
  keeps the shared call form `f(a, b)`.
*/
module JavascriptGenerator {
  import opened Text
  import opened Specs
  import Base = TesterBase

  /** Inherited `multi_sample?`. */
  function MultiSample(): (r: bool)
    ensures r
  {
    Base.MultiSample()
  }

  /** The inherited `sample_title_for`, built on the shared call form. */
  function SampleTitleFor(subject: string, sample: Example): (title: string)
    requires sample.ret.Some?
    ensures title == subject + "(" + Join(ArgumentList(sample.arguments), ", ") + ") should return " + sample.ret.value
  {
    Base.SampleTitleFor(Base.ApplicationFor, subject, sample)
  }

  /** `sample_lines_for`: the `it` line carrying the title, the `assertEqual` line, and the closing line. */
  function SampleLinesFor(subject: string, sample: Example): (lines: seq<string>)
    requires sample.ret.Some?
    ensures |lines| == 3 && forall k :: 0 <= k < |lines| ==> lines[k] != ""
  {
    [ "  it(\"" + SampleTitleFor(subject, sample) + "\", function() {",
      "    assertEqual(" + sample.ret.value + ", " + Base.ApplicationFor(subject, sample.arguments) + ");",
      "  });" ]
  }

  /** `test_lines_for`: the `describe` header, the blocks of the examples in their order, and the closing footer. */
  function TestLinesFor(spec: Spec): (doc: Base.Document)
    requires Valid(spec)
    ensures doc.header == ["describe(\"" + spec.subject + ": \", function() {"] && doc.footer == ["});"]
    ensures |doc.blocks| == |spec.examples.value|
    ensures forall i :: 0 <= i < |doc.blocks| ==> doc.blocks[i] == SampleLinesFor(spec.subject, spec.examples.value[i])
  {
    var examples := spec.examples.value;
    Base.Document(
      ["describe(\"" + spec.subject + ": \", function() {"],
      seq(|examples|, i requires 0 <= i < |examples| => SampleLinesFor(spec.subject, examples[i])),
      ["});"])
  }

  /**
    With no newline in the subject or the example, no line of the block holds
    one. Each generator carries its own copy because each has its own
    `sample_lines_for`; `Tester.BlockSingle` picks the one that applies.
  */
  lemma BlockSingle(subject: string, sample: Example)
    requires sample.ret.Some? && '\n' !in subject && ExampleFree(sample, '\n')
    ensures AllFree(SampleLinesFor(subject, sample), '\n')
  {
    Base.ApplicationFree(subject, sample.arguments, '\n');
    var call := Base.ApplicationFor(subject, sample.arguments);
    var title := SampleTitleFor(subject, sample);
    assert title == call + " should return " + sample.ret.value;
    assert '\n' !in title;
  }
}
