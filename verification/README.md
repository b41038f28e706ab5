# Tester: example-driven test generators

A model of the generators in `tester_spec.rb`. Each generator turns a function
spec into the text of a test suite in one target language. A spec is a
subject name plus an ordered list of examples, and each example has optional
arguments and an expected return value. The three targets are:

- Haskell, as an hspec `describe` block;
- Gobstones, as a YAML-like example list;
- JavaScript, as a mocha-style `describe` block.

The generators share `Tester::Base`, which holds:

- the capability flag `multi_sample?`;
- `test_for`, which flattens a generator's nested line list and joins it
  with newlines;
- the example title, which is the call followed by " should return " and the
  expected value;
- the default call form `f(a, b)`.

Haskell overrides the call form with curried application `f a b`, and its
titles use that override. Gobstones declares that it does not group samples.
The top-level `test_for` returns the empty text for a spec without examples.
Otherwise it resolves the generator by language name. `valid?` checks that
the examples are present and that each one has a return value.

The model is pure: datatypes, functions and lemmas, because the source only
builds values. Its modules are:

- `Text`: `join`, its inverse (cutting at a character) and `flatten` for line blocks.
- `Specs`: the spec data and `valid?`. Ruby's `nil` (a key left out of the hash) becomes `None`, except for the subject, which becomes `""`.
- `TesterBase`: the shared part.
  - The nested line list becomes a `Document` (header lines, one block per example, footer lines).
  - The call form that `sample_title_for` dispatches to is passed in as a function value.
- `HaskellGenerator`, `GobstonesGenerator` and `JavascriptGenerator`: one per generator module.
- `Tester`: the dispatcher over a closed `Language` type, and the properties that hold for every generator.
- `Scenarios`: the expectations the repository's own RSpec block states, as lemmas.

Each operation except `sample_lines_for` has a partner that its lemmas relate it to:

- joining with newlines is undone by cutting at newlines;
- the default call form is undone by a call parser;
- the curried call is undone by cutting at spaces;
- each generated text cuts back into exactly the generator's lines, in a
  layout fixed by header, block and footer sizes.

## Model

| member | source | states |
|---|---|---|
| Text.SplitJoin | tester_spec.rb:10 | joining lines with a separator character and cutting at that character gives the lines back, when no line holds it |
| Text.JoinFree | tester_spec.rb:21 | `Array#join` (`Text.Join`) puts no character into its result that is absent from every element and from the separator |
| Text.FlattenLength | tester_spec.rb:10 | `flatten` on blocks of `k` lines each gives `k` times as many lines as blocks |
| Text.FlattenAt | tester_spec.rb:10 | `flatten` (used by `TesterBase.Lines`) puts line `j` of block `i` at position `k * i + j` when every block has `k` lines |
| Specs.ArgumentList | tester_spec.rb:18 | the argument list is empty exactly when the arguments are `blank?` (`Specs.Blank`: absent or empty), the test both call forms make (here and at line 43) |
| Specs.AllHaveReturn | tester_spec.rb:101 | true exactly when every example has a return value |
| Specs.Valid | tester_spec.rb:100-102 | a spec is valid iff its examples are present (possibly empty) and every example has a return value |
| Specs.WithoutArguments | tester_spec.rb:100-102 | removing every example's arguments keeps the subject, the presence of the examples, their number and their return values |
| Specs.ValidIgnoresArguments | tester_spec.rb:100-102 | validity is unchanged when every example's arguments are removed |
| TesterBase.MultiSample | tester_spec.rb:5-7 | the shared capability flag is true |
| TesterBase.TestFor | tester_spec.rb:9-11 | the text cuts back at newlines into exactly the flattened lines, when no line holds a newline |
| TesterBase.LinesFree | tester_spec.rb:10 | flattening adds no character that no header, block or footer line holds |
| TesterBase.SampleTitleFor | tester_spec.rb:13-15 | the title is the call text the generator's own call form gives, then " should return " and the return value, split at the exact length |
| TesterBase.ApplicationFor | tester_spec.rb:17-23 | the call is the subject, then the arguments joined with ", " inside parentheses, with nothing between them when the arguments are blank |
| TesterBase.ArgumentsReadBack | tester_spec.rb:21 | the text between the parentheses reads back to the argument list when no argument holds ',' and the list is not the single empty text `[""]` |
| TesterBase.CallReadBack | tester_spec.rb:17-23 | parsing the call gives back the subject and the arguments, when the subject has no '(', no argument holds '(' or ',', and the arguments are not the single empty text `[""]` |
| TesterBase.ApplicationFree | tester_spec.rb:17-23 | a character other than the call punctuation, absent from subject and arguments, is absent from the call |
| HaskellGenerator.MultiSample | tester_spec.rb:5-7 | Haskell inherits the true capability flag |
| HaskellGenerator.ApplicationFor | tester_spec.rb:42-48 | the curried call is the subject followed by each argument, separated by single spaces, and the bare subject when the arguments are blank |
| HaskellGenerator.CurriedReadBack | tester_spec.rb:42-48 | cutting the curried call at spaces gives the subject followed by the arguments, when none holds a space |
| HaskellGenerator.ApplicationFree | tester_spec.rb:42-48 | a non-space character absent from subject and arguments is absent from the curried call |
| HaskellGenerator.SampleTitleFor | tester_spec.rb:37 | the Haskell title is built on the curried call: subject and arguments separated by spaces, then " should return " and the value |
| HaskellGenerator.SampleLinesFor | tester_spec.rb:35-40 | an example gives exactly two lines, neither of them empty |
| HaskellGenerator.TestLinesFor | tester_spec.rb:29-33 | one `describe` header line naming the subject, no footer, and block `i` is the lines of example `i` for every example in order |
| HaskellGenerator.BlockSingle | tester_spec.rb:35-40 | with no newline in the subject or the example, neither line of its block holds one |
| GobstonesGenerator.MultiSample | tester_spec.rb:54-56 | the Gobstones capability flag is false |
| GobstonesGenerator.SampleTitleFor | tester_spec.rb:68 | the Gobstones title is built on the default call form `subject(a, b)`, then " should return " and the value |
| GobstonesGenerator.SampleLinesFor | tester_spec.rb:66-71 | an example gives exactly two lines, neither of them empty |
| GobstonesGenerator.TestLinesFor | tester_spec.rb:58-64 | header `subject:` with the subject, then `examples:`; no footer; block `i` is the lines of example `i` for every example in order |
| GobstonesGenerator.BlockSingle | tester_spec.rb:66-71 | with no newline in the subject or the example, neither line of its block holds one |
| JavascriptGenerator.MultiSample | tester_spec.rb:5-7 | JavaScript inherits the true capability flag |
| JavascriptGenerator.SampleTitleFor | tester_spec.rb:86 | the JavaScript title is built on the default call form `subject(a, b)`, then " should return " and the value |
| JavascriptGenerator.SampleLinesFor | tester_spec.rb:84-90 | an example gives exactly three lines, none of them empty |
| JavascriptGenerator.TestLinesFor | tester_spec.rb:77-82 | one `describe` header line naming the subject, the closing `});` footer, and block `i` is the lines of example `i` for every example in order |
| JavascriptGenerator.BlockSingle | tester_spec.rb:84-90 | with no newline in the subject or the example, no line of its block holds one |
| Tester.Resolve | tester_spec.rb:97 | a name resolves to the language of that name, and to none exactly when no language has it |
| Tester.MultiSample | tester_spec.rb:5-56 | a generator groups examples exactly when it is not Gobstones |
| Tester.ApplicationFor | tester_spec.rb:17-48 | Haskell resolves to its curried override; every other generator to the default `subject(a, b)` form |
| Tester.TestFor | tester_spec.rb:95-98 | the text is empty exactly when the spec has no examples |
| Tester.TestForNamed | tester_spec.rb:95-98 | no examples give the empty text whatever the name; otherwise the result fails, with that name, exactly when no language has the name, and is the language's own text when one does |
| Tester.TitleShape | tester_spec.rb:13-15 | every title is the generator's resolved call, " should return ", and the return value; Gobstones and JavaScript titles coincide |
| Tester.TitleReadBack | tester_spec.rb:14 | the title ends in " should return " and the value; what precedes reads back to subject and arguments: for Haskell by cutting at spaces, when no part holds a space; for the others through the parentheses, when the subject holds no '(', no argument holds '(' or ',', and the arguments are not the single empty text `[""]` |
| Tester.BlankCall | tester_spec.rb:18-44 | blank arguments give the bare subject in Haskell and `subject()` in the other generators |
| Tester.DocumentShape | tester_spec.rb:29-82 | every generator's document has its fixed header and footer sizes, one block per example, and block `i` built from example `i` alone, of the generator's block size |
| Tester.LineLayout | tester_spec.rb:10 | the flattened lines number header + block size × examples + footer; line `j` of example `i`'s block sits at header + block size × `i` + `j`; no line is empty |
| Tester.LinesSingle | tester_spec.rb:10 | with no newline anywhere in the spec, no generated line holds one |
| Tester.OutputLines | tester_spec.rb:9-11 | for a spec with examples and no newline in it, the text cuts at newlines into exactly the generator's lines and does not end in a newline |
| Tester.LineCount | tester_spec.rb:9-11 | the text has 1 + 2n lines in Haskell, 2 + 2n in Gobstones and 2 + 3n in JavaScript for n examples |
| Tester.BlockLocality | tester_spec.rb:31-79 | equal examples under the same subject give equal lines at their own positions, whatever the other examples are |
| Scenarios.MultiSampleFlags | tester_spec.rb:106-108 | Haskell and JavaScript group examples; Gobstones does not |
| Scenarios.EmptySpecs | tester_spec.rb:110-119 | a spec with an empty example list gives the empty text in Gobstones and Haskell |
| Scenarios.GobstonesPared | tester_spec.rb:111-115 | the `pared` spec gives exactly the four expected Gobstones lines joined by newlines |
| Scenarios.HaskellSumarOnce | tester_spec.rb:121-127 | one `sumar` example gives exactly the three expected Haskell lines |
| Scenarios.HaskellSumarTwice | tester_spec.rb:129-138 | two `sumar` examples give exactly the five expected Haskell lines, in example order |
| Scenarios.HaskellPi | tester_spec.rb:140-145 | an example without arguments gives the bare subject in the title and the expectation |
| Scenarios.JavascriptSumar | tester_spec.rb:149-157 | one `sumar` example gives exactly the five expected JavaScript lines |
| Scenarios.EmptyArgumentCalls | tester_spec.rb:18-21 | a single empty argument renders `f()` exactly like no arguments; `["a", ""]` renders `f(a, )` and reads back to both arguments |
| Scenarios.Validity | tester_spec.rb:160-165 | the six validity verdicts of the repository's examples |
| Scenarios.UnknownName | tester_spec.rb:95-98 | an unknown language name gives the empty text for no examples and fails otherwise |

## Left out

- Language names: `"Tester::#{language.to_s.camelize}".constantize` accepts any spelling that camelizes to a generator module, for example `"Haskell"` as well as `:haskell`. `Tester.Resolve` accepts only the exact tokens `haskell`, `gobstones` and `javascript`.
- Tester.TestForNamed: the error Ruby raises for a name that is not a generator is returned as a `Failure` value. This covers `NameError` from `constantize` and also `NoMethodError` for `:base`, whose module holds only instance methods.
- Value rendering: Ruby interpolates arguments and return values with `to_s` (numbers, symbols). The model takes every value as its already-rendered text.
- An absent subject interpolates as the empty text, so the subject is a `string` and a missing one is `""`.
- Generation on an invalid spec. Ruby raises on absent examples and renders a missing return value as empty text. The source never checks validity before generating; the model makes `Valid` a precondition of every generator.
- Ruby's `flatten` works at any depth. `Document` has exactly the two levels every generator builds.
- Sharing by `extend` and dynamic dispatch: `TesterBase.SampleTitleFor` takes the generator's call form as a parameter.
- `multi_sample?` is read only by the RSpec expectations; no generator and not the dispatcher reads it, so no lemma ties it to the generated text.
- HaskellGenerator.SampleLinesFor: states the number of lines and that none is empty. The exact text of each line is its definition, pinned for concrete examples by the `Scenarios` lemmas.
- GobstonesGenerator.SampleLinesFor: states the number of lines and that none is empty. The exact text is its definition and is pinned by `Scenarios.GobstonesPared`.
- JavascriptGenerator.SampleLinesFor: states the number of lines and that none is empty. The exact text is its definition and is pinned by `Scenarios.JavascriptSumar`.
- Tester.OutputLines: holds only for specs with no newline in the subject, arguments or return values. A newline inside a value produces extra lines.
- Tester.LineCount: same condition as `Tester.OutputLines`.
- TesterBase.TestFor: the read-back holds only when no flattened line holds a newline and there is at least one line.
- Tester.TitleReadBack: for Haskell, holds only when neither the subject nor any argument holds a space; a space inside one of them adds pieces. For the other generators, holds only when the subject holds no '(' and no argument holds '(' or ','; a separator inside them shifts the cuts. The only other case left out is the single empty argument `Some([""])`, which renders `f()`, the same text as no arguments (`Scenarios.EmptyArgumentCalls`). Empty arguments beside others, as a `nil` argument renders, read back intact.
- The RSpec runner and the trailing comment block at the end of the file are not part of the model. The RSpec expectations become the `Scenarios` lemmas.
