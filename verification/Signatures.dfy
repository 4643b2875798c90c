/** What a parameter list says about the calls it takes. */
module Signatures {
  import opened Values

  /** The largest machine integer, standing for "any number of arguments". */
  const MAX_INT: nat := 0x7fff_ffff_ffff_ffff

  /** A tag and how it is printed, with its arguments. */
  datatype Tag = Tag(name: string, text: string)

  /** A default is what evaluating its expression gives. */
  datatype Parameter = Parameter(name: string, variadic: bool, default: Option<Result<Value>>, tags: seq<Tag>)

  datatype Signature = Signature(tags: string, min: nat, max: nat, variadic: bool)

  /** As the grammar has it: only the last parameter can be variadic. */
  predicate VariadicLast(params: seq<Parameter>) {
    forall i | 0 <= i < |params| - 1 :: !params[i].variadic
  }

  predicate HasVariadic(params: seq<Parameter>) {
    |params| > 0 && params[|params| - 1].variadic
  }

  /** How many parameters take one argument each. */
  function Fixed(params: seq<Parameter>): (n: nat)
    ensures n <= |params|
  {
    if HasVariadic(params) then |params| - 1 else |params|
  }

  function TagTexts(tags: seq<Tag>): string {
    if tags == [] then "" else tags[0].text + TagTexts(tags[1..])
  }

  function AllTags(params: seq<Parameter>): string {
    if params == [] then "" else TagTexts(params[0].tags) + "|" + AllTags(params[1..])
  }

  /** `min` is the least count such that every fixed parameter from there on has a default. */
  predicate LeastCount(params: seq<Parameter>, min: nat) {
    && min <= Fixed(params)
    && (forall i | min <= i < Fixed(params) :: params[i].default.Some?)
    && (min > 0 ==> params[min - 1].default.None?)
  }

  /** The signature of a parameter list: the least and the greatest number of arguments. */
  method GenerateSignature(params: seq<Parameter>) returns (sig: Signature)
    ensures LeastCount(params, sig.min) && sig.tags == AllTags(params)
    ensures sig.variadic == HasVariadic(params)
    ensures sig.max == if sig.variadic then 9_223_372_036_854_775_807 else |params|
  {
    var minP, maxP, variadic := |params|, |params|, false;
    if maxP > 0 && params[maxP - 1].variadic {
      maxP := MAX_INT;
      minP := minP - 1;
      variadic := true;
    }
    var i := minP - 1;
    while i >= 0 && params[i].default.Some?
      invariant -1 <= i == minP - 1 < |params| && minP <= Fixed(params)
      invariant forall k | minP <= k < Fixed(params) :: params[k].default.Some?
    {
      minP := i;
      i := i - 1;
    }
    var tags := WriteAllTags(params);
    sig := Signature(tags, minP, maxP, variadic);
  }

  method WriteAllTags(params: seq<Parameter>) returns (tags: string)
    ensures tags == AllTags(params)
  {
    tags := "";
    var j := 0;
    assert params[0..] == params;
    while j < |params|
      invariant 0 <= j <= |params| && tags + AllTags(params[j..]) == AllTags(params)
    {
      assert params[j..][0] == params[j] && params[j..][1..] == params[j + 1..];
      var texts := WriteTags(params[j].tags);
      Regroup(tags, texts, AllTags(params[j + 1..]));
      tags := tags + texts + "|";
      j := j + 1;
    }
    assert tags + "" == tags;
  }

  lemma Regroup(before: string, text: string, after: string)
    ensures before + (text + "|" + after) == (before + text + "|") + after
  {}

  method WriteTags(tags: seq<Tag>) returns (texts: string)
    ensures texts == TagTexts(tags)
  {
    texts := "";
    var i := 0;
    assert tags[0..] == tags;
    while i < |tags|
      invariant 0 <= i <= |tags| && texts + TagTexts(tags[i..]) == TagTexts(tags)
    {
      assert tags[i..][0] == tags[i] && tags[i..][1..] == tags[i + 1..];
      assert texts + (tags[i].text + TagTexts(tags[i + 1..])) == (texts + tags[i].text) + TagTexts(tags[i + 1..]);
      texts := texts + tags[i].text;
      i := i + 1;
    }
    assert texts + "" == texts;
  }

  /** The tags of a signature: those of each parameter, one after the other, with a bar after each parameter. */
  lemma TagsText()
    ensures AllTags([Parameter("a", false, None, [Tag("@num", "@num"), Tag("@x", "@x(1)")]),
            Parameter("b", false, None, [])])
            == "@num@x(1)||"
  {
    var tags := [Tag("@num", "@num"), Tag("@x", "@x(1)")];
    var b := Parameter("b", false, None, []);
    var params := [Parameter("a", false, None, tags), b];
    assert tags[1..] == [Tag("@x", "@x(1)")] && params[1..] == [b] && [b][1..] == [];
    assert TagTexts(tags) == "@num@x(1)";
  }

  lemma LeastCountIsUnique(params: seq<Parameter>, a: nat, b: nat)
    requires LeastCount(params, a) && LeastCount(params, b)
    ensures a == b
  {}
}
