/**
  The entry points: `test_for(language, spec)`, which picks the generator
  for a language and returns its test text (nothing at all for a spec
  without examples), and the generators seen side by side through one
  closed set of languages.
*/
module Tester {
  import opened Text
  import opened Specs
  import Base = TesterBase
  import HaskellGenerator
  import GobstonesGenerator
  import JavascriptGenerator

  /** The target languages, one per generator module. */
  datatype Language = Haskell | Gobstones | Javascript

  /** A language name that names no generator. */
  datatype LookupError = UnknownLanguage(name: string)

  datatype Result<+T> = Success(value: T) | Failure(error: LookupError)

  /** The name under which a language is asked for. */
  function NameOf(language: Language): string
  {
    match language
    case Haskell => "haskell"
    case Gobstones => "gobstones"
    case Javascript => "javascript"
  }

  /** The generator lookup by name: the language with that name, if any. */
  function Resolve(name: string): (language: Option<Language>)
    ensures language.Some? ==> NameOf(language.value) == name
    ensures language.None? ==> forall l: Language :: NameOf(l) != name
  {
    if name == "haskell" then Some(Haskell)
    else if name == "gobstones" then Some(Gobstones)
    else if name == "javascript" then Some(Javascript)
    else None
  }

  /** `multi_sample?` of each generator: every one but Gobstones groups examples. */
  function MultiSample(language: Language): (grouped: bool)
    ensures grouped <==> language != Gobstones
  {
    match language
    case Haskell => HaskellGenerator.MultiSample()
    case Gobstones => GobstonesGenerator.MultiSample()
    case Javascript => JavascriptGenerator.MultiSample()
  }

  /** The `application_for` each generator resolves: Haskell's override, or the shared one. */
  function ApplicationFor(language: Language, subject: string, arguments: Arguments): (call: string)
    ensures language == Haskell ==> call == Join([subject] + ArgumentList(arguments), " ")
    ensures language != Haskell ==> call == subject + "(" + Join(ArgumentList(arguments), ", ") + ")"
  {
    match language
    case Haskell => HaskellGenerator.ApplicationFor(subject, arguments)
    case Gobstones => Base.ApplicationFor(subject, arguments)
    case Javascript => Base.ApplicationFor(subject, arguments)
  }

  /** Each generator's `sample_title_for`. */
  function SampleTitleFor(language: Language, subject: string, sample: Example): string
    requires sample.ret.Some?
  {
    match language
    case Haskell => HaskellGenerator.SampleTitleFor(subject, sample)
    case Gobstones => GobstonesGenerator.SampleTitleFor(subject, sample)
    case Javascript => JavascriptGenerator.SampleTitleFor(subject, sample)
  }

  /** Each generator's `sample_lines_for`. */
  function SampleLinesFor(language: Language, subject: string, sample: Example): seq<string>
    requires sample.ret.Some?
  {
    match language
    case Haskell => HaskellGenerator.SampleLinesFor(subject, sample)
    case Gobstones => GobstonesGenerator.SampleLinesFor(subject, sample)
    case Javascript => JavascriptGenerator.SampleLinesFor(subject, sample)
  }

  /** Each generator's `test_lines_for`. */
  function TestLinesFor(language: Language, spec: Spec): Base.Document
    requires Valid(spec)
  {
    match language
    case Haskell => HaskellGenerator.TestLinesFor(spec)
    case Gobstones => GobstonesGenerator.TestLinesFor(spec)
    case Javascript => JavascriptGenerator.TestLinesFor(spec)
  }

  /** Lines before the first example block. */
  function HeaderSize(language: Language): nat
  {
    match language
    case Haskell => 1
    case Gobstones => 2
    case Javascript => 1
  }

  /** Lines in each example block. */
  function BlockSize(language: Language): nat
  {
    match language
    case Haskell => 2
    case Gobstones => 2
    case Javascript => 3
  }

  /** Lines after the last example block. */
  function FooterSize(language: Language): nat
  {
    match language
    case Haskell => 0
    case Gobstones => 0
    case Javascript => 1
  }

  /**
    `test_for(language, spec)`: the empty text when the spec has no examples,
    otherwise the generator's document joined into one text, which is then
    never empty.
  */
  function TestFor(language: Language, spec: Spec): (text: string)
    requires Valid(spec)
    ensures text == "" <==> spec.examples.value == []
  {
    if spec.examples.value == [] then ""
    else
      var doc := TestLinesFor(language, spec);
      JoinNonEmpty(Base.Lines(doc), "\n");
      Base.TestFor(doc)
  }

  /**
    `test_for` given the language by name: a spec without examples gives the
    empty text before the name is looked up at all; otherwise an unknown name
    fails and a known one gives that generator's text.
  */
  function TestForNamed(name: string, spec: Spec): (r: Result<string>)
    requires Valid(spec)
    ensures spec.examples.value == [] ==> r == Success("")
    ensures spec.examples.value != [] ==> (r.Failure? <==> forall l: Language :: NameOf(l) != name)
    ensures r.Failure? ==> r.error == UnknownLanguage(name)
    ensures forall l: Language :: NameOf(l) == name ==> r == Success(TestFor(l, spec))
  {
    if spec.examples.value == [] then Success("")
    else
      match Resolve(name)
      case None => Failure(UnknownLanguage(name))
      case Some(language) => Success(TestFor(language, spec))
  }

  /** Every generator's title is its resolved call form, " should return ", and the return value. */
  lemma TitleShape(language: Language, subject: string, sample: Example)
    requires sample.ret.Some?
    ensures SampleTitleFor(language, subject, sample)
         == ApplicationFor(language, subject, sample.arguments) + " should return " + sample.ret.value
    ensures language != Haskell ==>
      SampleTitleFor(language, subject, sample) == SampleTitleFor(Gobstones, subject, sample)
  {
  }

  /**
    The title reads back: cutting off " should return " and the return value
    leaves the call, and the call gives back the subject and the arguments:
    Haskell's by cutting at spaces, when no part holds a space; the others'
    through their parentheses, when the subject holds no '(', no argument
    holds '(' or ',', and the arguments are not the single empty text.
  */
  lemma TitleReadBack(language: Language, subject: string, sample: Example)
    requires sample.ret.Some?
    requires language == Haskell ==> ' ' !in subject && AllFree(ArgumentList(sample.arguments), ' ')
    requires language != Haskell ==>
      && '(' !in subject
      && AllFree(ArgumentList(sample.arguments), '(')
      && AllFree(ArgumentList(sample.arguments), ',')
      && ArgumentList(sample.arguments) != [""]
    ensures var title := SampleTitleFor(language, subject, sample);
      var suffix := " should return " + sample.ret.value;
      && |title| >= |suffix|
      && title[|title| - |suffix|..] == suffix
      && var call := title[..|title| - |suffix|];
         if language == Haskell then Split(call, ' ') == [subject] + ArgumentList(sample.arguments)
         else Base.ParseCall(call) == Some(Base.Call(subject, ArgumentList(sample.arguments)))
  {
    if language == Haskell {
      HaskellGenerator.CurriedReadBack(subject, sample.arguments);
    } else {
      Base.CallReadBack(subject, sample.arguments);
    }
  }

  /** Blank arguments give the bare subject in Haskell and `subject()` elsewhere. */
  lemma BlankCall(language: Language, subject: string, arguments: Arguments)
    requires Blank(arguments)
    ensures ApplicationFor(language, subject, arguments) == if language == Haskell then subject else subject + "()"
  {
  }

  /** The shape of the document every generator builds: sizes, and block `i` made from example `i` alone. */
  lemma DocumentShape(language: Language, spec: Spec)
    requires Valid(spec)
    ensures var doc := TestLinesFor(language, spec);
      && |doc.header| == HeaderSize(language)
      && |doc.footer| == FooterSize(language)
      && |doc.blocks| == |spec.examples.value|
      && (forall i :: 0 <= i < |doc.blocks| ==>
            doc.blocks[i] == SampleLinesFor(language, spec.subject, spec.examples.value[i]))
      && (forall i :: 0 <= i < |doc.blocks| ==> |doc.blocks[i]| == BlockSize(language))
  {
  }

  /**
    The flattened lines: header, then for example `i` its block at
    `HeaderSize + BlockSize * i`, then footer; no line is empty.
  */
  lemma {:induction false} LineLayout(language: Language, spec: Spec)
    requires Valid(spec)
    ensures var lines := Base.Lines(TestLinesFor(language, spec));
      && |lines| == HeaderSize(language) + BlockSize(language) * |spec.examples.value| + FooterSize(language)
      && (forall i, j :: 0 <= i < |spec.examples.value| && 0 <= j < BlockSize(language) ==>
            lines[HeaderSize(language) + BlockSize(language) * i + j]
            == SampleLinesFor(language, spec.subject, spec.examples.value[i])[j])
      && NoneEmpty(lines)
  {
    var doc := TestLinesFor(language, spec);
    var lines := Base.Lines(doc);
    var h, k := HeaderSize(language), BlockSize(language);
    DocumentShape(language, spec);
    FlattenLength(doc.blocks, k);
    forall i, j | 0 <= i < |spec.examples.value| && 0 <= j < k
      ensures lines[h + k * i + j] == SampleLinesFor(language, spec.subject, spec.examples.value[i])[j]
    {
      FlattenAt(doc.blocks, k, i, j);
    }
    BlocksNoneEmpty(language, spec);
    FlattenNoneEmpty(doc.blocks);
  }

  /** Every line of every example block is non-empty. */
  lemma BlocksNoneEmpty(language: Language, spec: Spec)
    requires Valid(spec)
    ensures var doc := TestLinesFor(language, spec);
      forall i :: 0 <= i < |doc.blocks| ==> NoneEmpty(doc.blocks[i])
  {
    DocumentShape(language, spec);
  }

  /** With no newline in the spec, no generated line holds a newline. */
  lemma {:induction false} LinesSingle(language: Language, spec: Spec)
    requires Valid(spec) && SpecFree(spec, '\n')
    ensures AllFree(Base.Lines(TestLinesFor(language, spec)), '\n')
  {
    var doc := TestLinesFor(language, spec);
    DocumentShape(language, spec);
    forall i | 0 <= i < |doc.blocks|
      ensures AllFree(doc.blocks[i], '\n')
    {
      BlockSingle(language, spec.subject, spec.examples.value[i]);
    }
    FramingSingle(language, spec);
    Base.LinesFree(doc, '\n');
  }

  /** With no newline in the subject, the header and footer lines hold none. */
  lemma FramingSingle(language: Language, spec: Spec)
    requires Valid(spec) && '\n' !in spec.subject
    ensures AllFree(TestLinesFor(language, spec).header, '\n')
    ensures AllFree(TestLinesFor(language, spec).footer, '\n')
  {
  }

  /** With no newline in the subject or the example, no line of its block holds one. */
  lemma BlockSingle(language: Language, subject: string, sample: Example)
    requires sample.ret.Some? && '\n' !in subject && ExampleFree(sample, '\n')
    ensures AllFree(SampleLinesFor(language, subject, sample), '\n')
  {
    match language
    case Haskell => HaskellGenerator.BlockSingle(subject, sample);
    case Gobstones => GobstonesGenerator.BlockSingle(subject, sample);
    case Javascript => JavascriptGenerator.BlockSingle(subject, sample);
  }

  /**
    For a spec with examples and no newline in it, the text cuts at newlines
    into exactly the generator's lines, with no empty line and no trailing
    newline.
  */
  lemma OutputLines(language: Language, spec: Spec)
    requires Valid(spec) && spec.examples.value != [] && SpecFree(spec, '\n')
    ensures var text := TestFor(language, spec);
      && Split(text, '\n') == Base.Lines(TestLinesFor(language, spec))
      && text[|text| - 1] != '\n'
  {
    var text := TestFor(language, spec);
    LinesSingle(language, spec);
    LineLayout(language, spec);
    var lines := Split(text, '\n');
    if text[|text| - 1] == '\n' {
      SplitTrailing(text, '\n');
      assert false;
    }
  }

  /** Line counts: Haskell 1 + 2n, Gobstones 2 + 2n, JavaScript 2 + 3n for n examples. */
  lemma LineCount(language: Language, spec: Spec)
    requires Valid(spec) && spec.examples.value != [] && SpecFree(spec, '\n')
    ensures var n := |spec.examples.value|;
      |Split(TestFor(language, spec), '\n')| == match language
        case Haskell => 1 + 2 * n
        case Gobstones => 2 + 2 * n
        case Javascript => 2 + 3 * n
  {
    OutputLines(language, spec);
    LineLayout(language, spec);
  }

  /**
    Order: example `i` of one spec and example `i'` of another, equal and
    under the same subject, give the same block at their own positions.
  */
  lemma BlockLocality(language: Language, spec: Spec, spec': Spec, i: nat, i': nat, j: nat)
    requires Valid(spec) && Valid(spec') && spec.subject == spec'.subject
    requires i < |spec.examples.value| && i' < |spec'.examples.value|
    requires spec.examples.value[i] == spec'.examples.value[i'] && j < BlockSize(language)
    ensures HeaderSize(language) + BlockSize(language) * i + j < |Base.Lines(TestLinesFor(language, spec))|
    ensures HeaderSize(language) + BlockSize(language) * i' + j < |Base.Lines(TestLinesFor(language, spec'))|
    ensures Base.Lines(TestLinesFor(language, spec))[HeaderSize(language) + BlockSize(language) * i + j]
         == Base.Lines(TestLinesFor(language, spec'))[HeaderSize(language) + BlockSize(language) * i' + j]
  {
    var block := SampleLinesFor(language, spec.subject, spec.examples.value[i]);
    LineLayout(language, spec);
    LineLayout(language, spec');
    assert Base.Lines(TestLinesFor(language, spec))[HeaderSize(language) + BlockSize(language) * i + j] == block[j];
    assert Base.Lines(TestLinesFor(language, spec'))[HeaderSize(language) + BlockSize(language) * i' + j] == block[j];
  }
}
