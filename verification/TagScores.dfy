/** How well the tags of a function's parameters fit the arguments of a call. */
module TagScores {
  import opened Values
  import opened Signatures

  /** The types of the arguments of a call, as objects name them. */
  datatype Args = Args(positional: seq<string>, named: map<string, string>) {
    function Count(): nat { |positional| + |named| }
  }

  const NIL_TYPE := "NIL"
  const LIST_TYPE := "LIST"
  const GROUP_TYPE := "FUNCTION_GROUP"
  const FUNCTION_TAG := "@fn"
  const STRUCT_TAG := "@struct"

  const TYPE_TAGS: map<string, string> := map[
    "@bool" := "BOOLEAN", "@bytes" := "BYTES", "@chan" := "CHANNEL", "@list" := LIST_TYPE, "@map" := "MAP",
    "@num" := "NUMBER", "@str" := "STRING", STRUCT_TAG := "STRUCT", "@sym" := "SYMBOL", "@task" := "TASK",
    FUNCTION_TAG := "FUNCTION"]

  /** The type of what parameter `i` gets, as far as this is looked at: by name, else by position; a variadic one gets a
      list only where no argument stands in its own position. */
  function Given(params: seq<Parameter>, args: Args, i: nat): Option<string>
    requires i < |params|
  {
    if params[i].name in args.named then Some(args.named[params[i].name])
    else if i < |args.positional| then Some(args.positional[i])
    else if i == |params| - 1 && params[i].variadic && |args.positional| >= |params| - 1 then Some(LIST_TYPE)
    else None
  }

  /** A type tag takes objects of its type and nil, and that for functions groups too. */
  predicate Takes(tag: string, argType: string)
    requires tag in TYPE_TAGS
  {
    argType == TYPE_TAGS[tag] || argType == NIL_TYPE || (tag == FUNCTION_TAG && argType == GROUP_TYPE)
  }

  /** The first tag that names a type. */
  function TypeTag(tags: seq<Tag>): (r: Option<string>)
    ensures r.Some? ==> r.value in TYPE_TAGS
  {
    if tags == [] then None
    else if tags[0].name in TYPE_TAGS then Some(tags[0].name)
    else TypeTag(tags[1..])
  }

  /** Parameter `i` has an argument and a type tag. */
  predicate Checked(params: seq<Parameter>, args: Args, i: nat)
    requires i < |params|
  {
    Given(params, args, i).Some? && TypeTag(params[i].tags).Some?
  }

  predicate Refuses(params: seq<Parameter>, args: Args, i: nat)
    requires i < |params|
  {
    Checked(params, args, i) && !Takes(TypeTag(params[i].tags).value, Given(params, args, i).value)
  }

  /** How many of the first `n` parameters have an argument and a type tag. */
  function CheckedCount(params: seq<Parameter>, args: Args, n: nat): nat
    requires n <= |params|
  {
    if n == 0 then 0 else CheckedCount(params, args, n - 1) + if Checked(params, args, n - 1) then 1 else 0
  }

  /** Negative when some parameter refuses its argument, else the number of parameters checked. */
  function Score(params: seq<Parameter>, args: Args): int {
    if exists i: nat :: i < |params| && Refuses(params, args, i) then -1 else CheckedCount(params, args, |params|)
  }

  /** The loop over parameters and their tags: one type tag decides about a parameter, and one parameter refused about
      the function. */
  method EvaluateTagMatch(params: seq<Parameter>, args: Args) returns (score: int)
    ensures score == Score(params, args)
  {
    score := 0;
    var i := 0;
    while i < |params|
      invariant 0 <= i <= |params| && score == CheckedCount(params, args, i)
      invariant forall j: nat | j < i :: !Refuses(params, args, j)
    {
      var arg := Given(params, args, i);
      if arg.Some? {
        var fits := CheckTags(params[i].tags, arg.value);
        if fits == Some(false) {
          assert Refuses(params, args, i);
          return -1;
        }
        if fits == Some(true) { score := score + 1; }
      }
      i := i + 1;
    }
  }

  /** Whether the first type tag takes the argument, if there is one. */
  method CheckTags(tags: seq<Tag>, argType: string) returns (fits: Option<bool>)
    ensures fits == if TypeTag(tags).None? then None else Some(Takes(TypeTag(tags).value, argType))
  {
    var i := 0;
    assert tags[0..] == tags;
    while i < |tags|
      invariant 0 <= i <= |tags| && TypeTag(tags[i..]) == TypeTag(tags)
    {
      assert tags[i..][0] == tags[i] && tags[i..][1..] == tags[i + 1..];
      if tags[i].name in TYPE_TAGS {
        return Some(Takes(tags[i].name, argType));
      }
      i := i + 1;
    }
    fits := None;
  }

  /** A function is out exactly when some argument given has a type that the first type tag of its parameter does not
      take. */
  lemma NegativeIff(params: seq<Parameter>, args: Args)
    ensures Score(params, args) < 0 <==> exists i: nat :: i < |params| && Refuses(params, args, i)
    ensures Score(params, args) <= |params|
  {
    CountBounds(params, args, |params|);
  }

  lemma {:induction false} CountBounds(params: seq<Parameter>, args: Args, n: nat)
    requires n <= |params|
    ensures CheckedCount(params, args, n) <= n
    decreases n
  {
    if n > 0 { CountBounds(params, args, n - 1); }
  }

  lemma {:induction false} CountIs(params: seq<Parameter>, args: Args, n: nat)
    requires n <= |params|
    ensures CheckedCount(params, args, n) == |set i: nat | i < n && Checked(params, args, i)|
    decreases n
  {
    hide Checked;
    var s := set i: nat | i < n && Checked(params, args, i);
    if n > 0 {
      CountIs(params, args, n - 1);
      var t := set i: nat | i < n - 1 && Checked(params, args, i);
      assert s == if Checked(params, args, n - 1) then t + {n - 1} else t;
    }
  }

  /** The parameters that have both an argument and a type tag. */
  function Tagged(params: seq<Parameter>, args: Args): set<nat> {
    set i: nat | i < |params| && Given(params, args, i).Some? && TypeTag(params[i].tags).Some?
  }

  /** Each of them takes its argument. */
  predicate TakesAll(params: seq<Parameter>, args: Args) {
    forall i | i in Tagged(params, args) :: Takes(TypeTag(params[i].tags).value, Given(params, args, i).value)
  }

  /** A function is out when some argument does not suit the tag it is checked by, and else has one point for each
      parameter checked. */
  lemma ScoreIs(params: seq<Parameter>, args: Args)
    ensures Score(params, args) >= 0 <==> TakesAll(params, args)
    ensures TakesAll(params, args) ==> Score(params, args) == |Tagged(params, args)|
  {
    CountIs(params, args, |params|);
    var s := set i: nat | i < |params| && Checked(params, args, i);
    assert forall i :: i in s <==> i in Tagged(params, args);
    assert s == Tagged(params, args);
    if i: nat :| i < |params| && Refuses(params, args, i) {
      assert i in Tagged(params, args);
    } else {
      forall i | i in Tagged(params, args)
        ensures Takes(TypeTag(params[i].tags).value, Given(params, args, i).value)
      {
        assert !Refuses(params, args, i);
      }
    }
  }

  /** Which types of objects a tag takes, besides nil. */
  predicate Listed(tag: string, argType: string) {
    (tag, argType) in {
      ("@bool", "BOOLEAN"), ("@bytes", "BYTES"), ("@chan", "CHANNEL"), ("@list", "LIST"), ("@map", "MAP"),
      ("@num", "NUMBER"), ("@str", "STRING"), ("@struct", "STRUCT"), ("@sym", "SYMBOL"), ("@task", "TASK"),
      ("@fn", "FUNCTION"), ("@fn", "FUNCTION_GROUP")}
  }

  /** The type tags and what they take, in full. */
  lemma TakesIff(tag: string, argType: string)
    ensures tag in TYPE_TAGS <==> exists t :: Listed(tag, t)
    ensures tag in TYPE_TAGS ==> (Takes(tag, argType) <==> argType == "NIL" || Listed(tag, argType))
  {
    if tag in TYPE_TAGS { assert Listed(tag, TYPE_TAGS[tag]); }
    if t :| Listed(tag, t) {
      assert tag in {"@bool", "@bytes", "@chan", "@list", "@map", "@num", "@str", "@struct", "@sym", "@task", "@fn"};
    }
  }

  /** One tag decides for a parameter: the first that names a type. */
  lemma {:induction false} FirstTypeTag(tags: seq<Tag>)
    ensures TypeTag(tags).None? <==> forall i | 0 <= i < |tags| :: tags[i].name !in TYPE_TAGS
    ensures forall i | 0 <= i < |tags| && tags[i].name in TYPE_TAGS
                       && (forall j | 0 <= j < i :: tags[j].name !in TYPE_TAGS) ::
              TypeTag(tags) == Some(tags[i].name)
    decreases |tags|
  {
    if tags != [] {
      FirstTypeTag(tags[1..]);
      assert forall i | 0 < i < |tags| :: tags[i] == tags[1..][i - 1];
      assert forall i | 0 <= i < |tags| - 1 :: tags[1..][i] == tags[i + 1];
    }
  }

  /** What tags are checked against: an argument by name wins over one in that position, even where it shifts the
      positional ones when they are bound. */
  lemma GivenIs(params: seq<Parameter>, args: Args, i: nat)
    requires i < |params|
    ensures var name, n := params[i].name, |args.positional|;
            && (name in args.named ==> Given(params, args, i) == Some(args.named[name]))
            && (name !in args.named && i < n ==> Given(params, args, i) == Some(args.positional[i]))
            && (name !in args.named && i >= n ==>
                  Given(params, args, i)
                  == if params[i].variadic && i + 1 == |params| && n == i then Some("LIST") else None)
  {}

  /** The struct tag is a type tag, so the name it asks for is never looked at: it takes any struct value, whatever its
      arguments say, and it takes no schema. */
  lemma StructNameIsIgnored(text: string, argType: string)
    ensures TypeTag([Tag(STRUCT_TAG, text)]) == Some(STRUCT_TAG)
    ensures Takes(STRUCT_TAG, argType) <==> argType == "STRUCT" || argType == NIL_TYPE
  {
    assert "@struct" in TYPE_TAGS && TYPE_TAGS["@struct"] == "STRUCT";
  }

  /** A tag on a variadic parameter is checked against the argument in its position, and against the list of what it
      gets only when that is empty: tagged as a list, it takes no arguments but a list there. */
  lemma VariadicTag(params: seq<Parameter>, args: Args)
    requires |params| > 0 && args.named == map[] && |args.positional| >= |params| - 1
    requires var last := params[|params| - 1]; last.variadic && TypeTag(last.tags) == Some("@list")
    ensures var n := |params| - 1;
            Refuses(params, args, n)
            <==> n < |args.positional| && args.positional[n] != LIST_TYPE && args.positional[n] != NIL_TYPE
  {
    assert TYPE_TAGS["@list"] == LIST_TYPE;
  }
}
