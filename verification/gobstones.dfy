/**
  `Tester::Gobstones`: a YAML-like list of examples, each with its title and
  its return value. It keeps the shared call form `f(a, b)` for the titles
  and never writes a call line of its own.
*/
module GobstonesGenerator {
  import opened Text
  import opened Specs
  import Base = TesterBase

  /** `multi_sample?` override: this generator declares it does not group examples. */
  function MultiSample(): (r: bool)
    ensures !r
  {
    false
  }

  /** The inherited `sample_title_for`, built on the shared call form. */
  function SampleTitleFor(subject: string, sample: Example): (title: string)
    requires sample.ret.Some?
    ensures title == subject + "(" + Join(ArgumentList(sample.arguments), ", ") + ") should return " + sample.ret.value
  {
    Base.SampleTitleFor(Base.ApplicationFor, subject, sample)
  }

  /** `sample_lines_for`: the `- title:` entry, then the `return:` entry. */
  function SampleLinesFor(subject: string, sample: Example): (lines: seq<string>)
    requires sample.ret.Some?
    ensures |lines| == 2 && forall k :: 0 <= k < |lines| ==> lines[k] != ""
  {
    [ "- title: " + SampleTitleFor(subject, sample),
      "  return: " + sample.ret.value ]
  }

  /** `test_lines_for`: the `subject:` and `examples:` header lines, then the blocks of the examples in their order. */
  function TestLinesFor(spec: Spec): (doc: Base.Document)
    requires Valid(spec)
    ensures doc.header == ["subject: " + spec.subject, "examples:"] && doc.footer == []
    ensures |doc.blocks| == |spec.examples.value|
    ensures forall i :: 0 <= i < |doc.blocks| ==> doc.blocks[i] == SampleLinesFor(spec.subject, spec.examples.value[i])
  {
    var examples := spec.examples.value;
    Base.Document(
      ["subject: " + spec.subject, "examples:"],
      seq(|examples|, i requires 0 <= i < |examples| => SampleLinesFor(spec.subject, examples[i])),
      [])
  }

  /**
    With no newline in the subject or the example, no line of the block holds
    one. Each generator carries its own copy because each has its own
    `sample_lines_for`; `Tester.BlockSingle` picks the one that applies.
  */
  lemma BlockSingle(subject: string, sample: Example)
    requires sample.ret.Some? && '\n' !in subject && ExampleFree(sample, '\n')
    ensures AllFree(SampleLinesFor(subject, sample), '\n')
  {
    Base.ApplicationFree(subject, sample.arguments, '\n');
    var call := Base.ApplicationFor(subject, sample.arguments);
    var title := SampleTitleFor(subject, sample);
    assert title == call + " should return " + sample.ret.value;
    assert '\n' !in title;
  }
}
