/**
  `Tester::Base`: what every generator shares. A generator describes its test
  document as header lines, one block of lines per example and footer lines;
  the shared part flattens that and joins it with newlines, builds example
  titles from the generator's own call form, and supplies the default call
  form `f(a, b)`.
*/
module TesterBase {
  import opened Text
  import opened Specs

  /** The nested line list a generator's `test_lines_for` returns. */
  datatype Document = Document(header: seq<string>, blocks: seq<seq<string>>, footer: seq<string>)

  /** A call read back from its text: the subject and the argument texts. */
  datatype Call = Call(subject: string, arguments: seq<string>)

  /** `multi_sample?`: a generator takes several examples in one document unless it says otherwise. */
  function MultiSample(): (r: bool)
    ensures r
  {
    true
  }

  /** The document's lines once its nesting is flattened. */
  function Lines(doc: Document): seq<string>
  {
    doc.header + Flatten(doc.blocks) + doc.footer
  }

  /** `test_for`: the flattened lines joined by newlines; cutting it at newlines gives the lines back. */
  function TestFor(doc: Document): (text: string)
    ensures |Lines(doc)| >= 1 && AllFree(Lines(doc), '\n') ==> Split(text, '\n') == Lines(doc)
  {
    var text := Join(Lines(doc), "\n");
    if |Lines(doc)| >= 1 && AllFree(Lines(doc), '\n') then
      SplitJoin(Lines(doc), '\n');
      text
    else
      text
  }

  /** A character in no header, block or footer line is in no line of the document. */
  lemma LinesFree(doc: Document, c: char)
    requires AllFree(doc.header, c) && AllFree(doc.footer, c)
    requires forall i :: 0 <= i < |doc.blocks| ==> AllFree(doc.blocks[i], c)
    ensures AllFree(Lines(doc), c)
  {
    FlattenFree(doc.blocks, c);
  }

  /**
    `sample_title_for`: the call text that the generator's own `application`
    gives, then " should return ", then the return value.
  */
  function SampleTitleFor(application: (string, Arguments) -> string, subject: string, sample: Example): (title: string)
    requires sample.ret.Some?
    ensures var suffix := " should return " + sample.ret.value;
      && |title| == |application(subject, sample.arguments)| + |suffix|
      && title[..|title| - |suffix|] == application(subject, sample.arguments)
      && title[|title| - |suffix|..] == suffix
  {
    application(subject, sample.arguments) + " should return " + sample.ret.value
  }

  /** `application_for`: `subject(a1, a2, ...)`, with nothing between the parentheses when the arguments are blank. */
  function ApplicationFor(subject: string, arguments: Arguments): (call: string)
    ensures call == subject + "(" + Join(ArgumentList(arguments), ", ") + ")"
  {
    if Blank(arguments) then subject + "()"
    else subject + "(" + Join(arguments.value, ", ") + ")"
  }

  /** Every element preceded by `p`. */
  function Prefixed(ys: seq<string>, p: string): (zs: seq<string>)
    ensures |zs| == |ys|
  {
    if |ys| == 0 then [] else [p + ys[0]] + Prefixed(ys[1..], p)
  }

  /** `s` without one leading space, if it has one. */
  function DropSpace(s: string): string
  {
    if |s| > 0 && s[0] == ' ' then s[1..] else s
  }

  /** Every element without one leading space. */
  function Unspaced(ys: seq<string>): (zs: seq<string>)
    ensures |zs| == |ys|
  {
    if |ys| == 0 then [] else [DropSpace(ys[0])] + Unspaced(ys[1..])
  }

  /** Reads the arguments back from the text between a call's parentheses. */
  function ArgumentsIn(inner: string): seq<string>
  {
    if inner == "" then []
    else
      var pieces := Split(inner, ',');
      [pieces[0]] + Unspaced(pieces[1..])
  }

  /** Reads a call `f(a, b)` back into its subject and arguments. */
  function ParseCall(text: string): Option<Call>
  {
    var parts := Split(text, '(');
    if |parts| != 2 || |parts[1]| == 0 || parts[1][|parts[1]| - 1] != ')' then None
    else Some(Call(parts[0], ArgumentsIn(parts[1][..|parts[1]| - 1])))
  }

  /** Joining with ", " is joining with "," after putting a space before every element but the first. */
  lemma {:induction false} JoinCommaSpace(x: string, ys: seq<string>)
    ensures Join([x] + ys, ", ") == Join([x] + Prefixed(ys, " "), [','])
    decreases |ys|
  {
    if |ys| > 0 {
      var rest := Prefixed(ys[1..], " ");
      assert ([x] + ys)[1..] == [ys[0]] + ys[1..];
      assert ([x] + Prefixed(ys, " "))[1..] == [" " + ys[0]] + rest;
      JoinCommaSpace(ys[0], ys[1..]);
      JoinPrefixFirst(" ", ys[0], rest, [',']);
      assert [','] + " " == ", ";
    }
  }

  /** Spaced pieces hold no ',' when the originals hold none. */
  lemma {:induction false} PrefixedFree(ys: seq<string>, c: char)
    requires c != ' ' && AllFree(ys, c)
    ensures AllFree(Prefixed(ys, " "), c)
  {
    if |ys| > 0 {
      PrefixedFree(ys[1..], c);
      var zs := Prefixed(ys, " ");
      forall i | 0 <= i < |zs| ensures c !in zs[i] {
        if i > 0 { assert zs[i] == Prefixed(ys[1..], " ")[i - 1]; }
      }
    }
  }

  /** Dropping the added spaces gives the pieces back. */
  lemma {:induction false} UnspacedPrefixed(ys: seq<string>)
    ensures Unspaced(Prefixed(ys, " ")) == ys
  {
    if |ys| > 0 {
      UnspacedPrefixed(ys[1..]);
      assert DropSpace(" " + ys[0]) == ys[0];
      assert Prefixed(ys, " ")[1..] == Prefixed(ys[1..], " ");
      assert [ys[0]] + ys[1..] == ys;
    }
  }

  /**
    The argument texts read back from their ", "-join, when none holds ','
    and the list is not the single empty text (which joins to "", the text
    of no arguments at all).
  */
  lemma ArgumentsReadBack(xs: seq<string>)
    requires AllFree(xs, ',')
    requires xs != [""]
    ensures ArgumentsIn(Join(xs, ", ")) == xs
  {
    if |xs| == 1 {
      SplitWithout(xs[0], ',');
    } else if xs != [] {
      var inner := Join(xs, ", ");
      var spaced := [xs[0]] + Prefixed(xs[1..], " ");
      assert [xs[0]] + xs[1..] == xs;
      JoinCommaSpace(xs[0], xs[1..]);
      assert AllFree(xs[1..], ',');
      PrefixedFree(xs[1..], ',');
      assert AllFree(spaced, ',') by {
        forall i | 0 <= i < |spaced| ensures ',' !in spaced[i] {
          if i > 0 { assert spaced[i] == Prefixed(xs[1..], " ")[i - 1]; }
        }
      }
      SplitJoin(spaced, ',');
      UnspacedPrefixed(xs[1..]);
      assert spaced[1..] == Prefixed(xs[1..], " ");
    }
  }

  /**
    The default call form reads back to its subject and arguments, when the
    subject has no '(', the arguments hold no '(' or ',', and they are not
    the single empty text `[""]`, which renders as `subject()` like none.
  */
  lemma CallReadBack(subject: string, arguments: Arguments)
    requires '(' !in subject
    requires AllFree(ArgumentList(arguments), '(') && AllFree(ArgumentList(arguments), ',')
    requires ArgumentList(arguments) != [""]
    ensures ParseCall(ApplicationFor(subject, arguments)) == Some(Call(subject, ArgumentList(arguments)))
  {
    var xs := ArgumentList(arguments);
    var inner := Join(xs, ", ");
    JoinFree(xs, ", ", '(');
    assert ApplicationFor(subject, arguments) == subject + ['('] + (inner + ")");
    SplitAfter(subject, inner + ")", '(');
    SplitWithout(inner + ")", '(');
    assert (inner + ")")[..|inner + ")"| - 1] == inner;
    ArgumentsReadBack(xs);
  }

  /** A character outside the punctuation of the call form, and absent from subject and arguments, is absent from the call. */
  lemma ApplicationFree(subject: string, arguments: Arguments, c: char)
    requires c !in "(), "
    requires c !in subject && AllFree(ArgumentList(arguments), c)
    ensures c !in ApplicationFor(subject, arguments)
  {
    JoinFree(ArgumentList(arguments), ", ", c);
  }
}
