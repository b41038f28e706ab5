/**
  `Tester::Haskell`: an hspec `describe` block with one `it` per example.
  It replaces the shared call form with Haskell's curried application
  `f a b`, which the example titles use as well.
*/
module HaskellGenerator {
  import opened Text
  import opened Specs
  import Base = TesterBase

  /** Inherited `multi_sample?`. */
  function MultiSample(): (r: bool)
    ensures r
  {
    Base.MultiSample()
  }

  /** `application_for` override: the subject, then each argument after one space; the bare subject when the arguments are blank. */
  function ApplicationFor(subject: string, arguments: Arguments): (call: string)
    ensures call == Join([subject] + ArgumentList(arguments), " ")
  {
    if Blank(arguments) then subject
    else
      assert ([subject] + arguments.value)[1..] == arguments.value;
      subject + " " + Join(arguments.value, " ")
  }

  /** The inherited `sample_title_for`, built on this generator's own call form. */
  function SampleTitleFor(subject: string, sample: Example): (title: string)
    requires sample.ret.Some?
    ensures title == Join([subject] + ArgumentList(sample.arguments), " ") + " should return " + sample.ret.value
  {
    Base.SampleTitleFor(ApplicationFor, subject, sample)
  }

  /** `sample_lines_for`: the `it` line carrying the title, then the `shouldBe` expectation. */
  function SampleLinesFor(subject: string, sample: Example): (lines: seq<string>)
    requires sample.ret.Some?
    ensures |lines| == 2 && forall k :: 0 <= k < |lines| ==> lines[k] != ""
  {
    [ "  it \"" + SampleTitleFor(subject, sample) + "\" $ do",
      "    " + ApplicationFor(subject, sample.arguments) + " `shouldBe` " + sample.ret.value ]
  }

  /** `test_lines_for`: the `describe` header, then the blocks of the examples in their order; no footer. */
  function TestLinesFor(spec: Spec): (doc: Base.Document)
    requires Valid(spec)
    ensures doc.header == ["describe \"" + spec.subject + ": \" $ do"] && doc.footer == []
    ensures |doc.blocks| == |spec.examples.value|
    ensures forall i :: 0 <= i < |doc.blocks| ==> doc.blocks[i] == SampleLinesFor(spec.subject, spec.examples.value[i])
  {
    var examples := spec.examples.value;
    Base.Document(
      ["describe \"" + spec.subject + ": \" $ do"],
      seq(|examples|, i requires 0 <= i < |examples| => SampleLinesFor(spec.subject, examples[i])),
      [])
  }

  /** The curried call reads back by cutting at spaces, when subject and arguments hold none. */
  lemma CurriedReadBack(subject: string, arguments: Arguments)
    requires ' ' !in subject && AllFree(ArgumentList(arguments), ' ')
    ensures Split(ApplicationFor(subject, arguments), ' ') == [subject] + ArgumentList(arguments)
  {
    var parts := [subject] + ArgumentList(arguments);
    assert AllFree(parts, ' ') by {
      forall i | 0 <= i < |parts| ensures ' ' !in parts[i] {
        if i > 0 { assert parts[i] == ArgumentList(arguments)[i - 1]; }
      }
    }
    assert " " == [' '];
    SplitJoin(parts, ' ');
  }

  /** A character other than a space, absent from subject and arguments, is absent from the curried call. */
  lemma ApplicationFree(subject: string, arguments: Arguments, c: char)
    requires c != ' '
    requires c !in subject && AllFree(ArgumentList(arguments), c)
    ensures c !in ApplicationFor(subject, arguments)
  {
    var parts := [subject] + ArgumentList(arguments);
    assert AllFree(parts, c) by {
      forall i | 0 <= i < |parts| ensures c !in parts[i] {
        if i > 0 { assert parts[i] == ArgumentList(arguments)[i - 1]; }
      }
    }
    JoinFree(parts, " ", c);
  }

  /**
    With no newline in the subject or the example, no line of the block holds
    one. Each generator carries its own copy because each has its own
    `sample_lines_for`; `Tester.BlockSingle` picks the one that applies.
  */
  lemma BlockSingle(subject: string, sample: Example)
    requires sample.ret.Some? && '\n' !in subject && ExampleFree(sample, '\n')
    ensures AllFree(SampleLinesFor(subject, sample), '\n')
  {
    ApplicationFree(subject, sample.arguments, '\n');
    var call := ApplicationFor(subject, sample.arguments);
    var title := SampleTitleFor(subject, sample);
    assert title == call + " should return " + sample.ret.value;
    assert '\n' !in title;
  }
}
