/** Which function of a group a call means: the choice does not depend on the order they are looked at. */
module Overloads {
  import opened Values
  import opened Numerals
  import opened Ordering
  import opened Signatures
  import opened TagScores

  /** A function of a group with its signature. */
  datatype Candidate = Candidate(sig: Signature, params: seq<Parameter>)

  // ----- the text of a signature -----

  function Key(sig: Signature): string {
    Digits(sig.min) + "|" + (Digits(sig.max) + "|" + ((if sig.variadic then "true" else "false") + "|" + sig.tags))
  }

  lemma {:induction false} SplitAtBar(a: string, b: string, x: string, y: string)
    requires '|' !in a && '|' !in b && a + "|" + x == b + "|" + y
    ensures a == b && x == y
    decreases |a|
  {
    var s, t := a + "|" + x, b + "|" + y;
    if a == [] || b == [] {
      assert s[0] == t[0];
      assert a == [] ==> s[1..] == x;
      assert b == [] ==> t[1..] == y;
    } else {
      assert s[0] == t[0] && s[1..] == a[1..] + "|" + x && t[1..] == b[1..] + "|" + y;
      SplitAtBar(a[1..], b[1..], x, y);
      assert a == [a[0]] + a[1..] && b == [b[0]] + b[1..];
    }
  }

  /** Different signatures have different texts. */
  lemma KeysTellApart(s: Signature, t: Signature)
    requires Key(s) == Key(t)
    ensures s == t
  {
    hide Digits;
    var v := (sig: Signature) => if sig.variadic then "true" else "false";
    var rest := (sig: Signature) => v(sig) + "|" + sig.tags;
    SplitAtBar(Digits(s.min), Digits(t.min), Digits(s.max) + "|" + rest(s), Digits(t.max) + "|" + rest(t));
    SplitAtBar(Digits(s.max), Digits(t.max), rest(s), rest(t));
    SplitAtBar(v(s), v(t), s.tags, t.tags);
    NumberOfDigits(s.min);
    NumberOfDigits(t.min);
    NumberOfDigits(s.max);
    NumberOfDigits(t.max);
    assert v(s)[0] == v(t)[0];
  }

  // ----- the choice -----

  /** It takes that many arguments, and no tag refuses one. */
  predicate Eligible(c: Candidate, args: Args) { c.sig.min <= args.Count() <= c.sig.max && Score(c.params, args) >= 0 }

  /** The smallest maximum wins, then the best score, then the longest tags, then the smallest text. */
  predicate Better(a: Candidate, b: Candidate, args: Args) {
    if a.sig.max != b.sig.max then a.sig.max < b.sig.max
    else if Score(a.params, args) != Score(b.params, args) then Score(a.params, args) > Score(b.params, args)
    else if |a.sig.tags| != |b.sig.tags| then |a.sig.tags| > |b.sig.tags|
    else TextLess(Key(a.sig), Key(b.sig))
  }

  /** Variadic means without an upper bound: so it is for every generated signature. */
  predicate Bounded(cands: seq<Candidate>) {
    forall c | c in cands :: c.sig.max <= MAX_INT && (c.sig.variadic <==> c.sig.max == MAX_INT)
  }

  /** A group has one function for each signature. */
  predicate DistinctSignatures(cands: seq<Candidate>) {
    forall i, j | 0 <= i < j < |cands| :: cands[i].sig != cands[j].sig
  }

  ghost predicate IsBest(cands: seq<Candidate>, args: Args, c: Candidate) {
    c in cands && Eligible(c, args) && forall d | d in cands && Eligible(d, args) && d != c :: Better(c, d, args)
  }

  /** `Better` is a strict total order on functions with different signatures. */
  lemma BetterOrder(a: Candidate, b: Candidate, c: Candidate, args: Args)
    ensures !Better(a, a, args)
    ensures a.sig == b.sig || Better(a, b, args) || Better(b, a, args)
    ensures Better(a, b, args) && Better(b, c, args) ==> Better(a, c, args)
  {
    hide Key; hide Score;
    TextOrder(Key(a.sig), Key(b.sig), Key(c.sig));
    TextOrder(Key(b.sig), Key(a.sig), Key(b.sig));
    if Key(a.sig) == Key(b.sig) {
      KeysTellApart(a.sig, b.sig);
    }
  }

  /** It takes that many arguments, and every argument given to a parameter with a type tag. */
  predicate Acceptable(c: Candidate, args: Args) {
    c.sig.min <= |args.positional| + |args.named| <= c.sig.max && TakesAll(c.params, args)
  }

  /** How many of its parameters have both an argument and a type tag. */
  function Checks(c: Candidate, args: Args): nat { |Tagged(c.params, args)| }

  /** What the choice is: a function that takes the arguments and, next to every other that does, takes no more of them;
      of those it checks most of them by tags; of those it has the longest tags; of those it comes first by the text of
      its signature. */
  lemma BestIff(cands: seq<Candidate>, args: Args, best: Candidate)
    ensures IsBest(cands, args, best)
            <==> best in cands && Acceptable(best, args) && forall d | d in cands && Acceptable(d, args) && d != best ::
                   var sameMax := best.sig.max == d.sig.max;
                   var sameChecks := sameMax && Checks(best, args) == Checks(d, args);
                   var sameTags := sameChecks && |best.sig.tags| == |d.sig.tags|;
                   && best.sig.max <= d.sig.max
                   && (sameMax ==> Checks(best, args) >= Checks(d, args))
                   && (sameChecks ==> |best.sig.tags| >= |d.sig.tags|)
                   && (sameTags ==> TextLess(Key(best.sig), Key(d.sig)))
  {
    hide Score; hide TakesAll; hide Tagged; hide Key; hide TextLess;
    forall d: Candidate
      ensures Score(d.params, args) >= 0 <==> TakesAll(d.params, args)
      ensures TakesAll(d.params, args) ==> Score(d.params, args) == Checks(d, args)
    {
      ScoreIs(d.params, args);
    }
  }

  /** Of `fn(@num n)` and `fn(n)` a call with one number means the tagged one, and a call with one string the other. */
  lemma TaggedWins()
    ensures var tagged := Candidate(Signature("@num|", 1, 1, false),
            [Parameter("n", false, None, [Tag("@num", "@num")])]);
            var plain := Candidate(Signature("|", 1, 1, false), [Parameter("n", false, None, [])]);
            && IsBest([plain, tagged], Args(["NUMBER"], map[]), tagged)
            && IsBest([plain, tagged], Args(["STRING"], map[]), plain)
  {
    var tagged := Candidate(Signature("@num|", 1, 1, false), [Parameter("n", false, None, [Tag("@num", "@num")])]);
    var plain := Candidate(Signature("|", 1, 1, false), [Parameter("n", false, None, [])]);
    var num, str := Args(["NUMBER"], map[]), Args(["STRING"], map[]);
    TakesIff("@num", "NUMBER");
    TakesIff("@num", "STRING");
    assert Listed("@num", "NUMBER");
    FirstTypeTag(tagged.params[0].tags);
    FirstTypeTag([]);
    hide TypeTag; hide Takes; hide Key;
    assert Acceptable(tagged, num) && Acceptable(plain, num) && Acceptable(plain, str) && !Acceptable(tagged, str);
    assert Tagged(tagged.params, num) == {0} && Tagged(plain.params, num) == {};
    BestIff([plain, tagged], num, tagged);
    BestIff([plain, tagged], str, plain);
  }

  /** The text of a signature, in full. */
  lemma KeyText()
    ensures Key(Signature("@num||", 1, 12, false)) == "1|12|false|@num||"
  {
    assert Digits(1) == "1" && Digits(12) == "1" + "2";
  }

  /** Whether the loop replaces the best so far. */
  predicate Replaces(c: Candidate, score: int, b: Candidate, bestScore: int) {
    || c.sig.max < b.sig.max
    || (c.sig.max == b.sig.max && score > bestScore)
    || (c.sig.max == b.sig.max && score == bestScore && b.sig.variadic && !c.sig.variadic)
    || (c.sig.max == b.sig.max && score == bestScore && b.sig.variadic == c.sig.variadic
        && |c.sig.tags| > |b.sig.tags|)
    || (c.sig.max == b.sig.max && score == bestScore && b.sig.variadic == c.sig.variadic
        && |c.sig.tags| == |b.sig.tags| && (Key(b.sig) == "" || TextLess(Key(c.sig), Key(b.sig))))
  }

  /** The selection loop: the best candidate so far, kept in separate variables. */
  method SelectFromGroup(cands: seq<Candidate>, args: Args) returns (best: Option<Candidate>)
    requires DistinctSignatures(cands) && Bounded(cands)
    ensures best.Some? ==> IsBest(cands, args, best.value)
    ensures best.None? ==> forall c | c in cands :: !Eligible(c, args)
  {
    hide Key; hide TextLess; hide Score;
    best := None;
    var n := args.Count();
    var bestMax: int, bestScore: int, bestSpecificity: int, bestKey, foundNonVariadic := MAX_INT, -1, -1, "", false;
    var i := 0;
    while i < |cands|
      invariant 0 <= i <= |cands|
      invariant best.None? ==> bestMax == MAX_INT && bestScore == -1 && bestSpecificity == -1 && bestKey == ""
                               && !foundNonVariadic
      invariant best.None? ==> forall c | c in cands[..i] :: !Eligible(c, args)
      invariant best.Some? ==>
        var b := best.value;
        IsBest(cands[..i], args, b) && bestMax == b.sig.max && bestScore == Score(b.params, args)
        && bestSpecificity == |b.sig.tags| && bestKey == Key(b.sig) && foundNonVariadic == !b.sig.variadic
    {
      var c := cands[i];
      assert c in cands && cands[..i + 1] == cands[..i] + [c];
      if c.sig.min <= n <= c.sig.max {
        var score := EvaluateTagMatch(c.params, args);
        if score >= 0 {
          var specificity, key := |c.sig.tags|, Key(c.sig);
          var replace := c.sig.max < bestMax
            || (c.sig.max == bestMax && score > bestScore)
            || (c.sig.max == bestMax && score == bestScore && !foundNonVariadic && !c.sig.variadic)
            || (c.sig.max == bestMax && score == bestScore && foundNonVariadic == !c.sig.variadic
              && specificity > bestSpecificity)
            || (c.sig.max == bestMax && score == bestScore && foundNonVariadic == !c.sig.variadic
              && specificity == bestSpecificity && (bestKey == "" || TextLess(key, bestKey)));
          if best.Some? {
            assert replace == Replaces(c, score, best.value, bestScore);
            ReplacesIfBetter(cands, i, args, best.value);
          }
          if replace {
            best, bestMax, bestScore, bestSpecificity, bestKey, foundNonVariadic :=
              Some(c), c.sig.max, score, specificity, key, !c.sig.variadic;
          }
        }
      }
      i := i + 1;
    }
    assert cands[..|cands|] == cands;
  }

  lemma ReplacesIsBetter(c: Candidate, b: Candidate, args: Args)
    requires (c.sig.variadic <==> c.sig.max == MAX_INT) && (b.sig.variadic <==> b.sig.max == MAX_INT)
    ensures Replaces(c, Score(c.params, args), b, Score(b.params, args)) == Better(c, b, args)
  {
    assert Key(b.sig) != "" by { assert '|' in Key(b.sig); }
    hide Key; hide TextLess; hide Score;
  }

  lemma ReplacesIfBetter(cands: seq<Candidate>, i: nat, args: Args, b: Candidate)
    requires i < |cands| && DistinctSignatures(cands) && Bounded(cands) && Eligible(cands[i], args)
             && IsBest(cands[..i], args, b)
    ensures var c := cands[i];
            IsBest(cands[..i + 1], args,
                   if Replaces(c, Score(c.params, args), b, Score(b.params, args)) then c else b)
  {
    hide Key; hide TextLess; hide Score; hide Better; hide Replaces;
    var c := cands[i];
    assert cands[..i + 1] == cands[..i] + [c] && c in cands;
    assert b in cands;
    assert b.sig != c.sig;
    ReplacesIsBetter(c, b, args);
    BetterOrder(c, b, b, args);
    forall d | d in cands[..i] && Eligible(d, args) && d != b ensures Better(c, b, args) ==> Better(c, d, args) {
      BetterOrder(c, b, d, args);
    }
  }

  /** Whatever order the functions of a group come in, the choice is the same. */
  lemma BestIsUnique(cands: seq<Candidate>, others: seq<Candidate>, args: Args, c: Candidate, d: Candidate)
    requires forall x :: x in cands <==> x in others
    requires IsBest(cands, args, c) && IsBest(others, args, d)
    ensures c == d
  {
    BetterOrder(c, d, c, args);
  }
}
