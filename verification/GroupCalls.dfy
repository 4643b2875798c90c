/** Calling a group of functions: one is chosen, and the arguments are bound to its parameters. */
module GroupCalls {
  import opened Values
  import opened Signatures
  import opened TagScores
  import opened Overloads
  import opened Calls

  /** Every function of the group has the signature of its parameter list. */
  predicate Generated(cands: seq<Candidate>) {
    forall c | c in cands :: HasSignature(c.params, c.sig)
  }

  predicate HasSignature(params: seq<Parameter>, sig: Signature) {
    && VariadicLast(params) && LeastCount(params, sig.min) && |params| < MAX_INT
    && sig.variadic == HasVariadic(params) && sig.max == if sig.variadic then MAX_INT else |params|
  }

  /** The types `types` describes are those of the arguments. */
  predicate Describes(args: Args, positional: seq<Value>, named: Named) {
    |args.positional| == |positional| && args.named.Keys == named.Keys
  }

  /** The function a call selects, if any, and the values of its parameters, unless binding them fails. */
  method CallGroup(cands: seq<Candidate>, positional: seq<Value>, named: Named, args: Args)
    returns (chosen: Option<Candidate>, error: Option<BindError>, values: seq<Value>)
    requires DistinctSignatures(cands) && Generated(cands) && Describes(args, positional, named)
    ensures chosen.None? <==> forall c | c in cands :: !Eligible(c, args)
    ensures chosen.Some? ==> IsBest(cands, args, chosen.value)
    ensures chosen.Some? ==> (error.None? <==> Binds(chosen.value.params, positional, named))
    ensures chosen.Some? && error.None? ==>
      && |values| == |chosen.value.params|
      && forall i | 0 <= i < |values| :: values[i] == ValueAt(chosen.value.params, positional, named, i)
    ensures chosen.Some? && error.Some? ==> ErrorFits(chosen.value.params, positional, named, error.value)
  {
    hide Score; hide Binds; hide ValueAt; hide ErrorFits; hide Better;
    AreBounded(cands);
    chosen := SelectFromGroup(cands, args);
    error, values := None, [];
    if chosen.Some? {
      var params := chosen.value.params;
      assert chosen.value in cands && HasSignature(params, chosen.value.sig);
      var bound, provided := new Value[|params|](_ => Nil), new bool[|params|](_ => false);
      error := BindArguments(params, positional, named, bound, provided);
      values := bound[..];
    }
  }

  lemma AreBounded(cands: seq<Candidate>)
    requires Generated(cands)
    ensures Bounded(cands)
  {
    forall c | c in cands ensures c.sig.max <= MAX_INT && (c.sig.variadic <==> c.sig.max == MAX_INT) {
      assert HasSignature(c.params, c.sig);
    }
  }

  /** A call by position selects a function whenever some function of the group binds its arguments and refuses none by
      its tags; and the function selected binds them exactly when the defaults it needs give values. */
  lemma PositionalCallIff(cands: seq<Candidate>, positional: seq<Value>, args: Args, chosen: Option<Candidate>)
    requires Generated(cands) && Describes(args, positional, map[]) && |positional| <= MAX_INT
    requires chosen.None? <==> forall c | c in cands :: !Eligible(c, args)
    requires chosen.Some? ==> IsBest(cands, args, chosen.value)
    ensures (exists c :: c in cands && Binds(c.params, positional, map[]) && RefusesNone(c.params, args))
            ==> chosen.Some?
    ensures chosen.Some? ==>
      && (Binds(chosen.value.params, positional, map[]) <==> DefaultsHold(chosen.value.params, |positional|))
      && RefusesNone(chosen.value.params, args)
  {
    hide Score; hide Refuses; hide Binds; hide Better; hide DefaultsHold;
    assert args.named == map[];
    forall c | c in cands
      ensures Binds(c.params, positional, map[]) && RefusesNone(c.params, args)
              <==> Eligible(c, args) && DefaultsHold(c.params, |positional|)
      ensures Eligible(c, args) ==> RefusesNone(c.params, args)
    {
      assert HasSignature(c.params, c.sig);
      PositionalBindsIff(c.params, positional, c.sig);
      NegativeIff(c.params, args);
    }
  }

  predicate RefusesNone(params: seq<Parameter>, args: Args) {
    forall i: nat | i < |params| :: !Refuses(params, args, i)
  }

  /** Parameter lists `(a)` and `(b, c = nil)`. */
  const ONE := Parameter("a", false, None, [])
  const TWO := [Parameter("b", false, None, []), Parameter("c", false, Some(Ok(Nil)), [])]
  const PAIR := [Candidate(Signature("|", 1, 1, false), [ONE]), Candidate(Signature("||", 1, 2, false), TWO)]

  /** By name it can fail where a function of the group would have bound the argument: the number of arguments selects
      `(a)` for a call that names `b`. */
  lemma NamedCallMissesOverload(v: Value, t: string, chosen: Option<Candidate>)
    requires chosen.None? <==> forall c | c in PAIR :: !Eligible(c, Args([], map["b" := t]))
    requires chosen.Some? ==> IsBest(PAIR, Args([], map["b" := t]), chosen.value)
    ensures Generated(PAIR) && DistinctSignatures(PAIR) && chosen == Some(PAIR[0])
    ensures !Binds(PAIR[0].params, [], map["b" := v]) && Binds(PAIR[1].params, [], map["b" := v])
  {
    var args := Args([], map["b" := t]);
    PairIsGroup();
    FirstIsEligible(args);
    FirstIsBetter(args);
    FirstDoesNotBind(v);
    SecondBinds(v);
    hide Score; hide Better; hide Eligible; hide Binds; hide HasSignature;
    assert PAIR[0] in PAIR;
  }

  lemma PairIsGroup()
    ensures Generated(PAIR) && DistinctSignatures(PAIR)
  {
    assert HasSignature([ONE], PAIR[0].sig) && HasSignature(TWO, PAIR[1].sig);
  }

  lemma FirstIsEligible(args: Args)
    requires args.Count() == 1
    ensures Eligible(PAIR[0], args)
  {
    NegativeIff([ONE], args);
    assert forall i: nat | i < 1 :: !Refuses([ONE], args, i);
  }

  lemma FirstIsBetter(args: Args)
    ensures Better(PAIR[0], PAIR[1], args) && !Better(PAIR[1], PAIR[0], args)
  {
    hide Key; hide Score;
  }

  lemma FirstDoesNotBind(v: Value)
    ensures !Binds([ONE], [], map["b" := v])
  {
    assert "b" in map["b" := v] && IndexOf([ONE], "b").None?;
    assert !NameFits([ONE], map["b" := v], "b");
  }

  lemma SecondBinds(v: Value)
    ensures Binds(TWO, [], map["b" := v])
  {
    var named: Named := map["b" := v];
    assert TWO[..1] == [TWO[0]];
    assert IndexOf(TWO, "b") == IndexOf(TWO[..1], "b") == Some(0);
    assert IsNamed(TWO, named, 0);
  }
}
