/**
  The input of the test generators: a function spec, that is a subject name
  and an ordered list of examples. Ruby's `nil` (a key left out of the hash)
  is `None`; every value is its already-rendered literal text.
*/
module Specs {
  import opened Text

  datatype Option<+T> = None | Some(value: T)

  /** An example's `arguments`: absent, or a list of rendered values. */
  type Arguments = Option<seq<string>>

  /** One example: its arguments and its expected `return` value. */
  datatype Example = Example(arguments: Arguments, ret: Option<string>)

  /** A function spec: the subject (an absent subject interpolates as "") and its examples. */
  datatype Spec = Spec(subject: string, examples: Option<seq<Example>>)

  /** ActiveSupport's `blank?` on an argument list: absent or empty. */
  predicate Blank(arguments: Arguments)
  {
    arguments.None? || arguments.value == []
  }

  /** The arguments as a list, absent ones as the empty list. */
  function ArgumentList(arguments: Arguments): (xs: seq<string>)
    ensures xs == [] <==> Blank(arguments)
  {
    match arguments
    case None => []
    case Some(xs) => xs
  }

  /** `examples.all? { |it| !it[:return].nil? }`, one example at a time. */
  function AllHaveReturn(examples: seq<Example>): (r: bool)
    ensures r <==> forall i :: 0 <= i < |examples| ==> examples[i].ret.Some?
  {
    if |examples| == 0 then true
    else examples[0].ret.Some? && AllHaveReturn(examples[1..])
  }

  /** `valid?`: the examples are present (possibly empty) and each has a return value. */
  predicate Valid(spec: Spec)
    ensures Valid(spec) <==>
      spec.examples.Some? && forall i :: 0 <= i < |spec.examples.value| ==> spec.examples.value[i].ret.Some?
  {
    spec.examples.Some? && AllHaveReturn(spec.examples.value)
  }

  /** The character `c` occurs in none of the example's arguments and not in its return value. */
  predicate ExampleFree(example: Example, c: char)
  {
    && AllFree(ArgumentList(example.arguments), c)
    && (example.ret.Some? ==> c !in example.ret.value)
  }

  /** The character `c` occurs nowhere in the spec's subject or examples. */
  predicate SpecFree(spec: Spec, c: char)
  {
    && c !in spec.subject
    && (spec.examples.Some? ==>
          forall i :: 0 <= i < |spec.examples.value| ==> ExampleFree(spec.examples.value[i], c))
  }

  /** The spec with every example's arguments removed. */
  function WithoutArguments(spec: Spec): (s: Spec)
    ensures s.subject == spec.subject && s.examples.Some? == spec.examples.Some?
    ensures spec.examples.Some? ==>
      && |s.examples.value| == |spec.examples.value|
      && forall i :: 0 <= i < |s.examples.value| ==>
           s.examples.value[i] == Example(None, spec.examples.value[i].ret)
  {
    match spec.examples
    case None => spec
    case Some(es) => Spec(spec.subject, Some(seq(|es|, i requires 0 <= i < |es| => Example(None, es[i].ret))))
  }

  /** Validity never depends on the arguments: removing all of them leaves it unchanged. */
  lemma ValidIgnoresArguments(spec: Spec)
    ensures Valid(WithoutArguments(spec)) == Valid(spec)
  {
  }
}
