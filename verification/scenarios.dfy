/**
  The concrete cases the repository's own examples pin down, stated as
  lemmas over the model: capability flags, empty specs, exact generated
  texts and validity verdicts. Each generated text is stated as its exact
  lines joined by newlines; the lines of each example block are established
  one lemma at a time.
*/
module Scenarios {
  import opened Text
  import opened Specs
  import Base = TesterBase
  import opened Tester

  /** Haskell and JavaScript group examples; Gobstones does not. */
  lemma MultiSampleFlags()
    ensures MultiSample(Haskell) && MultiSample(Javascript) && !MultiSample(Gobstones)
  {
  }

  /** A spec with an empty example list gives the empty text, in Gobstones and in Haskell. */
  lemma EmptySpecs()
    ensures TestFor(Gobstones, Spec("", Some([]))) == ""
    ensures TestFor(Haskell, Spec("", Some([]))) == ""
  {
  }

  // The examples and specs of the repository's own cases.
  const Negro := Example(None, Some("Negro"))
  const Sumar11 := Example(Some(["1", "1"]), Some("2"))
  const Sumar23 := Example(Some(["2", "3"]), Some("5"))
  const Pi314 := Example(None, Some("3.14"))
  const Pared := Spec("pared", Some([Negro]))
  const SumarOnce := Spec("sumar", Some([Sumar11]))
  const SumarTwice := Spec("sumar", Some([Sumar11, Sumar23]))
  const Pi := Spec("pi", Some([Pi314]))

  // Gobstones, subject `pared`, one example returning `Negro`.

  lemma ParedTitle()
    ensures SampleTitleFor(Gobstones, "pared", Negro) == "pared() should return Negro"
  {
  }

  /**
    Pure string step of the first line: the label before the title, checked
    apart from the generator definitions.
  */
  lemma ParedLine0Front(t: string)
    requires t == "pared() should return Negro"
    ensures "- title: " + t == "- title: pared() should return Negro"
  {
  }

  lemma ParedLine0()
    ensures SampleLinesFor(Gobstones, "pared", Negro)[0] == "- title: pared() should return Negro"
  {
    ParedTitle();
    ParedLine0Front(SampleTitleFor(Gobstones, "pared", Negro));
  }

  lemma ParedLine1()
    ensures SampleLinesFor(Gobstones, "pared", Negro)[1] == "  return: Negro"
  {
  }

  lemma GobstonesParedBlocks()
    ensures TestLinesFor(Gobstones, Pared).blocks == [["- title: pared() should return Negro", "  return: Negro"]]
  {
    ParedLine0();
    ParedLine1();
  }

  lemma GobstonesParedLines()
    ensures Base.Lines(TestLinesFor(Gobstones, Pared)) ==
      ["subject: pared",
       "examples:",
       "- title: pared() should return Negro",
       "  return: Negro"]
  {
    var doc := TestLinesFor(Gobstones, Pared);
    GobstonesParedBlocks();
    assert Flatten(doc.blocks) == doc.blocks[0] + Flatten(doc.blocks[1..]);
    assert "subject: " + "pared" == "subject: pared";
    assert doc.header == ["subject: pared", "examples:"];
  }

  lemma GobstonesPared()
    ensures var lines := ["subject: pared",
                        "examples:",
                        "- title: pared() should return Negro",
                        "  return: Negro"];
      TestFor(Gobstones, Pared) == Join(lines, "\n") && Split(TestFor(Gobstones, Pared), '\n') == lines
  {
    GobstonesParedLines();
    OutputLines(Gobstones, Pared);
  }

  // Haskell, subject `sumar`, examples 1 1 -> 2 and 2 3 -> 5.

  lemma Sumar11Call()
    ensures ApplicationFor(Haskell, "sumar", Some(["1", "1"])) == "sumar 1 1"
  {
    assert Join(["1", "1"], " ") == "1 1";
  }

  lemma Sumar11Title()
    ensures SampleTitleFor(Haskell, "sumar", Sumar11) == "sumar 1 1 should return 2"
  {
    Sumar11Call();
  }

  /**
    Pure string steps of the first line: the opening before the title, then
    the closing after it. They mention no generator, so each literal
    concatenation is checked apart from the generator definitions.
  */
  lemma Sumar11Line0Front(t: string)
    requires t == "sumar 1 1 should return 2"
    ensures "  it \"" + t == "  it \"sumar 1 1 should return 2"
  {
  }

  lemma Sumar11Line0Back(u: string)
    requires u == "  it \"sumar 1 1 should return 2"
    ensures u + "\" $ do" == "  it \"sumar 1 1 should return 2\" $ do"
  {
  }

  lemma Sumar11Line0()
    ensures SampleLinesFor(Haskell, "sumar", Sumar11)[0] == "  it \"sumar 1 1 should return 2\" $ do"
  {
    Sumar11Title();
    var t := SampleTitleFor(Haskell, "sumar", Sumar11);
    Sumar11Line0Front(t);
    Sumar11Line0Back("  it \"" + t);
  }

  lemma Sumar11Line1()
    ensures SampleLinesFor(Haskell, "sumar", Sumar11)[1] == "    sumar 1 1 `shouldBe` 2"
  {
    Sumar11Call();
  }

  lemma Sumar23Call()
    ensures ApplicationFor(Haskell, "sumar", Some(["2", "3"])) == "sumar 2 3"
  {
    assert Join(["2", "3"], " ") == "2 3";
  }

  lemma Sumar23Title()
    ensures SampleTitleFor(Haskell, "sumar", Sumar23) == "sumar 2 3 should return 5"
  {
    Sumar23Call();
  }

  /**
    Pure string steps of the first line: the opening before the title, then
    the closing after it. They mention no generator, so each literal
    concatenation is checked apart from the generator definitions.
  */
  lemma Sumar23Line0Front(t: string)
    requires t == "sumar 2 3 should return 5"
    ensures "  it \"" + t == "  it \"sumar 2 3 should return 5"
  {
  }

  lemma Sumar23Line0Back(u: string)
    requires u == "  it \"sumar 2 3 should return 5"
    ensures u + "\" $ do" == "  it \"sumar 2 3 should return 5\" $ do"
  {
  }

  lemma Sumar23Line0()
    ensures SampleLinesFor(Haskell, "sumar", Sumar23)[0] == "  it \"sumar 2 3 should return 5\" $ do"
  {
    Sumar23Title();
    var t := SampleTitleFor(Haskell, "sumar", Sumar23);
    Sumar23Line0Front(t);
    Sumar23Line0Back("  it \"" + t);
  }

  lemma Sumar23Line1()
    ensures SampleLinesFor(Haskell, "sumar", Sumar23)[1] == "    sumar 2 3 `shouldBe` 5"
  {
    Sumar23Call();
  }

  lemma HaskellSumarOnceBlocks()
    ensures TestLinesFor(Haskell, SumarOnce).blocks == [["  it \"sumar 1 1 should return 2\" $ do", "    sumar 1 1 `shouldBe` 2"]]
  {
    Sumar11Line0();
    Sumar11Line1();
  }

  lemma HaskellSumarOnceLines()
    ensures Base.Lines(TestLinesFor(Haskell, SumarOnce)) ==
      ["describe \"sumar: \" $ do",
       "  it \"sumar 1 1 should return 2\" $ do",
       "    sumar 1 1 `shouldBe` 2"]
  {
    var doc := TestLinesFor(Haskell, SumarOnce);
    HaskellSumarOnceBlocks();
    assert Flatten(doc.blocks) == doc.blocks[0] + Flatten(doc.blocks[1..]);
    assert "describe \"" + "sumar" + ": \" $ do" == "describe \"sumar: \" $ do";
    assert doc.header == ["describe \"sumar: \" $ do"];
  }

  lemma HaskellSumarOnce()
    ensures var lines := ["describe \"sumar: \" $ do",
                        "  it \"sumar 1 1 should return 2\" $ do",
                        "    sumar 1 1 `shouldBe` 2"];
      TestFor(Haskell, SumarOnce) == Join(lines, "\n") && Split(TestFor(Haskell, SumarOnce), '\n') == lines
  {
    HaskellSumarOnceLines();
    OutputLines(Haskell, SumarOnce);
  }

  lemma HaskellSumarTwiceBlocks()
    ensures TestLinesFor(Haskell, SumarTwice).blocks ==
      [["  it \"sumar 1 1 should return 2\" $ do", "    sumar 1 1 `shouldBe` 2"],
       ["  it \"sumar 2 3 should return 5\" $ do", "    sumar 2 3 `shouldBe` 5"]]
  {
    Sumar11Line0();
    Sumar11Line1();
    Sumar23Line0();
    Sumar23Line1();
  }

  lemma HaskellSumarTwiceLines()
    ensures Base.Lines(TestLinesFor(Haskell, SumarTwice)) ==
      ["describe \"sumar: \" $ do",
       "  it \"sumar 1 1 should return 2\" $ do",
       "    sumar 1 1 `shouldBe` 2",
       "  it \"sumar 2 3 should return 5\" $ do",
       "    sumar 2 3 `shouldBe` 5"]
  {
    var doc := TestLinesFor(Haskell, SumarTwice);
    HaskellSumarTwiceBlocks();
    assert Flatten(doc.blocks) == doc.blocks[0] + Flatten(doc.blocks[1..]);
    assert Flatten(doc.blocks[1..]) == doc.blocks[1] + Flatten(doc.blocks[2..]);
    assert "describe \"" + "sumar" + ": \" $ do" == "describe \"sumar: \" $ do";
    assert doc.header == ["describe \"sumar: \" $ do"];
  }

  lemma HaskellSumarTwice()
    ensures var lines := ["describe \"sumar: \" $ do",
                        "  it \"sumar 1 1 should return 2\" $ do",
                        "    sumar 1 1 `shouldBe` 2",
                        "  it \"sumar 2 3 should return 5\" $ do",
                        "    sumar 2 3 `shouldBe` 5"];
      TestFor(Haskell, SumarTwice) == Join(lines, "\n") && Split(TestFor(Haskell, SumarTwice), '\n') == lines
  {
    HaskellSumarTwiceLines();
    OutputLines(Haskell, SumarTwice);
  }

  // Haskell, subject `pi`, one example without arguments returning 3.14.

  lemma PiTitle()
    ensures SampleTitleFor(Haskell, "pi", Pi314) == "pi should return 3.14"
  {
  }

  /**
    Pure string steps of the first line: the opening before the title, then
    the closing after it. They mention no generator, so each literal
    concatenation is checked apart from the generator definitions.
  */
  lemma PiLine0Front(t: string)
    requires t == "pi should return 3.14"
    ensures "  it \"" + t == "  it \"pi should return 3.14"
  {
  }

  lemma PiLine0Back(u: string)
    requires u == "  it \"pi should return 3.14"
    ensures u + "\" $ do" == "  it \"pi should return 3.14\" $ do"
  {
  }

  lemma PiLine0()
    ensures SampleLinesFor(Haskell, "pi", Pi314)[0] == "  it \"pi should return 3.14\" $ do"
  {
    PiTitle();
    var t := SampleTitleFor(Haskell, "pi", Pi314);
    PiLine0Front(t);
    PiLine0Back("  it \"" + t);
  }

  lemma PiLine1()
    ensures SampleLinesFor(Haskell, "pi", Pi314)[1] == "    pi `shouldBe` 3.14"
  {
  }

  lemma HaskellPiBlocks()
    ensures TestLinesFor(Haskell, Pi).blocks == [["  it \"pi should return 3.14\" $ do", "    pi `shouldBe` 3.14"]]
  {
    PiLine0();
    PiLine1();
  }

  lemma HaskellPiLines()
    ensures Base.Lines(TestLinesFor(Haskell, Pi)) ==
      ["describe \"pi: \" $ do",
       "  it \"pi should return 3.14\" $ do",
       "    pi `shouldBe` 3.14"]
  {
    var doc := TestLinesFor(Haskell, Pi);
    HaskellPiBlocks();
    assert Flatten(doc.blocks) == doc.blocks[0] + Flatten(doc.blocks[1..]);
    assert "describe \"" + "pi" + ": \" $ do" == "describe \"pi: \" $ do";
    assert doc.header == ["describe \"pi: \" $ do"];
  }

  lemma HaskellPi()
    ensures var lines := ["describe \"pi: \" $ do",
                        "  it \"pi should return 3.14\" $ do",
                        "    pi `shouldBe` 3.14"];
      TestFor(Haskell, Pi) == Join(lines, "\n") && Split(TestFor(Haskell, Pi), '\n') == lines
  {
    HaskellPiLines();
    OutputLines(Haskell, Pi);
  }

  // JavaScript, subject `sumar`, one example 1 1 -> 2.

  lemma JsSumarCall()
    ensures ApplicationFor(Javascript, "sumar", Some(["1", "1"])) == "sumar(1, 1)"
  {
    assert Join(["1", "1"], ", ") == "1, 1";
  }

  lemma JsSumarTitle()
    ensures SampleTitleFor(Javascript, "sumar", Sumar11) == "sumar(1, 1) should return 2"
  {
    JsSumarCall();
  }

  /**
    Pure string steps of the first line: the opening before the title, then
    the closing after it. They mention no generator, so each literal
    concatenation is checked apart from the generator definitions.
  */
  lemma JsSumarLine0Front(t: string)
    requires t == "sumar(1, 1) should return 2"
    ensures "  it(\"" + t == "  it(\"sumar(1, 1) should return 2"
  {
  }

  lemma JsSumarLine0Back(u: string)
    requires u == "  it(\"sumar(1, 1) should return 2"
    ensures u + "\", function() {" == "  it(\"sumar(1, 1) should return 2\", function() {"
  {
  }

  lemma JsSumarLine0()
    ensures SampleLinesFor(Javascript, "sumar", Sumar11)[0]
         == "  it(\"sumar(1, 1) should return 2\", function() {"
  {
    JsSumarTitle();
    var t := SampleTitleFor(Javascript, "sumar", Sumar11);
    JsSumarLine0Front(t);
    JsSumarLine0Back("  it(\"" + t);
  }

  lemma JsSumarLine1()
    ensures SampleLinesFor(Javascript, "sumar", Sumar11)[1] == "    assertEqual(2, sumar(1, 1));"
  {
    JsSumarCall();
  }

  lemma JsSumarLine2()
    ensures SampleLinesFor(Javascript, "sumar", Sumar11)[2] == "  });"
  {
  }

  lemma JavascriptSumarBlocks()
    ensures TestLinesFor(Javascript, SumarOnce).blocks == [["  it(\"sumar(1, 1) should return 2\", function() {", "    assertEqual(2, sumar(1, 1));", "  });"]]
  {
    JsSumarLine0();
    JsSumarLine1();
    JsSumarLine2();
  }

  lemma JavascriptSumarLines()
    ensures Base.Lines(TestLinesFor(Javascript, SumarOnce)) ==
      ["describe(\"sumar: \", function() {",
       "  it(\"sumar(1, 1) should return 2\", function() {",
       "    assertEqual(2, sumar(1, 1));",
       "  });",
       "});"]
  {
    var doc := TestLinesFor(Javascript, SumarOnce);
    JavascriptSumarBlocks();
    assert Flatten(doc.blocks) == doc.blocks[0] + Flatten(doc.blocks[1..]);
    assert "describe(\"" + "sumar" + ": \", function() {" == "describe(\"sumar: \", function() {";
    assert doc.header == ["describe(\"sumar: \", function() {"];
  }

  lemma JavascriptSumar()
    ensures var lines := ["describe(\"sumar: \", function() {",
                        "  it(\"sumar(1, 1) should return 2\", function() {",
                        "    assertEqual(2, sumar(1, 1));",
                        "  });",
                        "});"];
      TestFor(Javascript, SumarOnce) == Join(lines, "\n") && Split(TestFor(Javascript, SumarOnce), '\n') == lines
  {
    JavascriptSumarLines();
    OutputLines(Javascript, SumarOnce);
  }
  /**
    The default call form with an empty argument text (what a `nil` argument
    renders as): the single empty argument gives the same text as no
    arguments, while an empty argument beside others reads back intact.
  */
  lemma EmptyArgumentCalls()
    ensures ApplicationFor(Javascript, "f", Some([""])) == ApplicationFor(Javascript, "f", None) == "f()"
    ensures ApplicationFor(Javascript, "f", Some(["a", ""])) == "f(a, )"
    ensures Base.ParseCall(ApplicationFor(Javascript, "f", Some(["a", ""]))) == Some(Base.Call("f", ["a", ""]))
  {
    assert Join(["a", ""], ", ") == "a, ";
    Base.CallReadBack("f", Some(["a", ""]));
  }

  /** The validity verdicts of the repository's examples. */
  lemma Validity()
    ensures Valid(Spec("", Some([])))
    ensures Valid(Spec("sumar", Some([Example(Some(["1", "1"]), Some("2"))])))
    ensures Valid(Spec("sumar", Some([])))
    ensures !Valid(Spec("sumar", None))
    ensures !Valid(Spec("sumar", Some([Example(Some(["1", "2"]), None)])))
    ensures Valid(Spec("pi", Some([Example(None, Some("3.14"))])))
  {
  }

  /** An unknown language name fails only when there are examples to generate. */
  lemma UnknownName()
    ensures TestForNamed("cobol", Spec("sumar", Some([]))) == Success("")
    ensures TestForNamed("cobol", Spec("sumar", Some([Example(None, Some("2"))]))) == Failure(UnknownLanguage("cobol"))
  {
  }
}
