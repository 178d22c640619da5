/** The keyword-weighted grader: a marking scheme maps keywords to weights,
    and a submission scores the sum of the weights of the keywords that occur
    in its content. */
module Grading {
  import opened Outcomes

  type AssignmentId = nat

  /** A value stored in a marking scheme (a JSON object). Python tells apart
      ints, bools (a subclass of int), floats and everything else (strings,
      null, lists, objects). Floats are modelled as exact reals. */
  datatype Weight = IntW(n: int) | BoolW(b: bool) | FloatW(x: real) | OtherW
  {
    /** `isinstance(value, int)`: true for ints and for bools. */
    predicate IsInt() { IntW? || BoolW? }

    /** Whether adding the value to a number succeeds. */
    predicate IsNumber() { !OtherW? }

    /** The amount that adding the value to a number adds. */
    function Amount(): real
      requires IsNumber()
    {
      match this
      case IntW(n) => n as real
      case BoolW(b) => if b then 1.0 else 0.0
      case FloatW(x) => x
    }
  }

  /** One entry of a marking scheme: a keyword and its weight. */
  datatype Criterion = Criterion(keyword: string, weight: Weight)

  /** A marking scheme, as its entries in the dict's iteration order. */
  type MarkingScheme = seq<Criterion>

  /** The part of an assignment the scoring function reads. */
  datatype Assignment = Assignment(id: AssignmentId, scheme: MarkingScheme)

  /** What `grader` is handed as its `assignment` argument: an assignment,
      or a marking-scheme dict, which has no `marking_scheme` attribute. */
  datatype GraderArgument = AssignmentArg(assignment: Assignment) | DictArg(entries: MarkingScheme)

  /** Reading `.marking_scheme` from the argument: an assignment's scheme,
      or AttributeError for a dict. */
  function MarkingSchemeOf(arg: GraderArgument): Outcome<MarkingScheme>
  {
    match arg
    case AssignmentArg(assignment) => Ok(assignment.scheme)
    case DictArg(_) => Raised(AttributeError)
  }

  /** Python's `keyword in content` on strings: a literal, case-sensitive
      substring test. The empty keyword occurs in every content, every
      content contains itself, and no keyword longer than the content
      occurs in it. */
  function Occurs(keyword: string, content: string): (r: bool)
    ensures |keyword| == 0 ==> r
    ensures keyword == content ==> r
    ensures r ==> |keyword| <= |content|
  {
    assert |keyword| == 0 || keyword == content ==> OccursAt(keyword, content, 0);
    exists i :: 0 <= i <= |content| - |keyword| && OccursAt(keyword, content, i)
  }

  /** The keyword stands in the content starting at index `i`. */
  predicate OccursAt(keyword: string, content: string, i: nat)
  {
    i + |keyword| <= |content| && content[i..i + |keyword|] == keyword
  }

  /** The weights of the entries whose keyword occurs in the content, in
      scheme order. */
  function Matched(content: string, scheme: MarkingScheme): seq<Weight>
  {
    if scheme == [] then []
    else
      var last := scheme[|scheme| - 1];
      Matched(content, scheme[..|scheme| - 1])
        + (if Occurs(last.keyword, content) then [last.weight] else [])
  }

  /** All the weights of a scheme, in scheme order. */
  function Weights(scheme: MarkingScheme): seq<Weight>
  {
    if scheme == [] then []
    else Weights(scheme[..|scheme| - 1]) + [scheme[|scheme| - 1].weight]
  }

  predicate AllNumbers(ws: seq<Weight>)
  {
    forall i :: 0 <= i < |ws| ==> ws[i].IsNumber()
  }

  /** The sum of a sequence of numeric weights. */
  function Sum(ws: seq<Weight>): real
    requires AllNumbers(ws)
  {
    if ws == [] then 0.0 else Sum(ws[..|ws| - 1]) + ws[|ws| - 1].Amount()
  }

  /** What the scoring function computes from a scheme: the sum of the
      weights of the keywords that occur in the content, or TypeError when
      one of those weights is not a number. No other exception is raised,
      and an empty scheme scores 0. */
  function Score(content: string, scheme: MarkingScheme): (r: Outcome<real>)
    ensures r.Raised? ==> r == Raised(TypeError)
    ensures scheme == [] ==> r == Ok(0.0)
  {
    var matched := Matched(content, scheme);
    if AllNumbers(matched) then Ok(Sum(matched)) else Raised(TypeError)
  }

  /** What `grader` computes from its argument: AttributeError for a dict,
      before any entry is looked at; the scheme's score for an assignment. */
  function GraderOutcome(content: string, arg: GraderArgument): (r: Outcome<real>)
    ensures arg.AssignmentArg? ==> r == Score(content, arg.assignment.scheme)
    ensures arg.DictArg? ==> r == Raised(AttributeError)
  {
    match MarkingSchemeOf(arg)
    case Raised(e) => Raised(e)
    case Ok(scheme) => Score(content, scheme)
  }

  /** The scoring function `grader`: reads the argument's marking scheme,
      then walks it and adds the weight of every keyword found in the
      content to a running score. */
  method Grader(content: string, arg: GraderArgument) returns (r: Outcome<real>)
    ensures r == GraderOutcome(content, arg)
  {
    var read := MarkingSchemeOf(arg);
    if read.Raised? {
      return Raised(read.error);
    }
    var scheme := read.value;
    var score := 0.0;
    for i := 0 to |scheme|
      invariant AllNumbers(Matched(content, scheme[..i]))
      invariant score == Sum(Matched(content, scheme[..i]))
    {
      var criterion := scheme[i];
      assert scheme[..i + 1] == scheme[..i] + [criterion];
      MatchedSnoc(content, scheme[..i], criterion);
      if Occurs(criterion.keyword, content) {
        if !criterion.weight.IsNumber() {
          // `score += weight` raises: the weight is among the matched
          // weights of the whole scheme, so the score is TypeError.
          MatchedConcat(content, scheme[..i + 1], scheme[i + 1..]);
          assert scheme[..i + 1] + scheme[i + 1..] == scheme;
          AllNumbersConcat(Matched(content, scheme[..i + 1]), Matched(content, scheme[i + 1..]));
          AllNumbersConcat(Matched(content, scheme[..i]), [criterion.weight]);
          assert ![criterion.weight][0].IsNumber();
          return Raised(TypeError);
        }
        SumSnoc(Matched(content, scheme[..i]), criterion.weight);
        score := score + criterion.weight.Amount();
        assert Matched(content, scheme[..i + 1]) == Matched(content, scheme[..i]) + [criterion.weight];
      } else {
        assert Matched(content, scheme[..i + 1]) == Matched(content, scheme[..i]) + [];
        assert Matched(content, scheme[..i]) + [] == Matched(content, scheme[..i]);
      }
    }
    assert scheme[..|scheme|] == scheme;
    return Ok(score);
  }

  lemma MatchedSnoc(content: string, s: MarkingScheme, e: Criterion)
    ensures Matched(content, s + [e]) ==
              Matched(content, s) + (if Occurs(e.keyword, content) then [e.weight] else [])
  {
  }

  lemma SumSnoc(ws: seq<Weight>, w: Weight)
    requires AllNumbers(ws) && w.IsNumber()
    ensures AllNumbers(ws + [w]) && Sum(ws + [w]) == Sum(ws) + w.Amount()
  {
  }

  /** Matching distributes over splitting the scheme. */
  lemma {:induction false} MatchedConcat(content: string, a: MarkingScheme, b: MarkingScheme)
    ensures Matched(content, a + b) == Matched(content, a) + Matched(content, b)
  {
    if b == [] {
      assert a + b == a;
    } else {
      var b' := b[..|b| - 1];
      MatchedConcat(content, a, b');
      assert (a + b)[..|a + b| - 1] == a + b';
    }
  }

  lemma AllNumbersConcat(x: seq<Weight>, y: seq<Weight>)
    ensures AllNumbers(x + y) <==> AllNumbers(x) && AllNumbers(y)
  {
    if AllNumbers(x + y) {
      forall i | 0 <= i < |x| ensures x[i].IsNumber() {
        assert (x + y)[i] == x[i];
      }
      forall i | 0 <= i < |y| ensures y[i].IsNumber() {
        assert (x + y)[|x| + i] == y[i];
      }
    }
  }

  lemma {:induction false} SumConcat(x: seq<Weight>, y: seq<Weight>)
    requires AllNumbers(x) && AllNumbers(y)
    ensures AllNumbers(x + y) && Sum(x + y) == Sum(x) + Sum(y)
  {
    AllNumbersConcat(x, y);
    if y == [] {
      assert x + y == x;
    } else {
      var y' := y[..|y| - 1];
      SumConcat(x, y');
      assert (x + y)[..|x + y| - 1] == x + y';
    }
  }

  /** How one entry, wherever it stands in the scheme, contributes to the
      score: nothing when its keyword does not occur; its weight when it
      does; TypeError when it does and the weight is not a number. */
  lemma ScoreOfInsertion(content: string, a: MarkingScheme, e: Criterion, b: MarkingScheme)
    ensures !Occurs(e.keyword, content) ==> Score(content, a + [e] + b) == Score(content, a + b)
    ensures Occurs(e.keyword, content) && !e.weight.IsNumber() ==>
              Score(content, a + [e] + b) == Raised(TypeError)
    ensures Score(content, a + b).Raised? ==> Score(content, a + [e] + b) == Raised(TypeError)
    ensures Occurs(e.keyword, content) && e.weight.IsNumber() && Score(content, a + b).Ok? ==>
              Score(content, a + [e] + b) == Ok(Score(content, a + b).value + e.weight.Amount())
  {
    MatchedConcat(content, a + [e], b);
    MatchedConcat(content, a, [e]);
    MatchedConcat(content, a, b);
    var ma, me, mb := Matched(content, a), Matched(content, [e]), Matched(content, b);
    MatchedSingle(content, e);
    assert Matched(content, a + [e] + b) == ma + me + mb;
    assert Matched(content, a + b) == ma + mb;
    if !Occurs(e.keyword, content) {
      assert ma + me + mb == ma + mb;
    } else if !e.weight.IsNumber() {
      AllNumbersConcat(ma + me, mb);
      AllNumbersConcat(ma, me);
      assert !me[0].IsNumber();
    } else if !AllNumbers(ma + mb) {
      AllNumbersConcat(ma, mb);
      AllNumbersConcat(ma + me, mb);
      AllNumbersConcat(ma, me);
    } else {
      AllNumbersConcat(ma, mb);
      SumSnoc([], e.weight);
      assert [] + [e.weight] == me;
      SumConcat(ma, me);
      SumConcat(ma + me, mb);
      SumConcat(ma, mb);
    }
  }

  lemma MatchedSingle(content: string, e: Criterion)
    ensures Matched(content, [e]) == if Occurs(e.keyword, content) then [e.weight] else []
  {
    MatchedSnoc(content, [], e);
    assert [] + [e] == [e];
  }

  /** Moving one entry to the end of the scheme leaves the score unchanged. */
  lemma ScoreMoveToEnd(content: string, a: MarkingScheme, e: Criterion, b: MarkingScheme)
    ensures Score(content, a + [e] + b) == Score(content, a + b + [e])
  {
    ScoreOfInsertion(content, a, e, b);
    ScoreOfInsertion(content, a + b, e, []);
    assert a + b + [] == a + b;
    assert a + b + [e] + [] == a + b + [e];
  }

  /** Entries with the same score stay equal after appending the same entry. */
  lemma ScoreAppendCongruent(content: string, x: MarkingScheme, y: MarkingScheme, e: Criterion)
    requires Score(content, x) == Score(content, y)
    ensures Score(content, x + [e]) == Score(content, y + [e])
  {
    ScoreOfInsertion(content, x, e, []);
    ScoreOfInsertion(content, y, e, []);
    assert x + [] == x;
    assert y + [] == y;
    assert x + [e] + [] == x + [e];
    assert y + [e] + [] == y + [e];
  }

  /** The score does not depend on the order in which the scheme's entries
      are visited. */
  lemma {:induction false} ScoreOrderIndependent(content: string, s1: MarkingScheme, s2: MarkingScheme)
    requires multiset(s1) == multiset(s2)
    ensures Score(content, s1) == Score(content, s2)
    decreases |s1|
  {
    if s1 == [] {
      assert |s2| == |multiset(s2)| == 0;
    } else {
      var e := s1[|s1| - 1];
      var s1' := s1[..|s1| - 1];
      assert s1 == s1' + [e];
      assert e in multiset(s2);
      var j :| 0 <= j < |s2| && s2[j] == e;
      var a, b := s2[..j], s2[j + 1..];
      assert s2 == a + [e] + b;
      assert multiset(s1') == multiset(a + b) by {
        assert multiset(s2) == multiset(a) + multiset{e} + multiset(b);
        assert multiset(s1) == multiset(s1') + multiset{e};
        assert multiset(s1') == multiset(s1) - multiset{e};
        assert multiset(a + b) == multiset(a) + multiset(b);
      }
      ScoreOrderIndependent(content, s1', a + b);
      ScoreAppendCongruent(content, s1', a + b, e);
      ScoreMoveToEnd(content, a, e, b);
    }
  }

  /** The scoring function raises exactly when some keyword that occurs carries a
      weight that is not a number. */
  lemma {:induction false} ScoreRaisesIff(content: string, scheme: MarkingScheme)
    ensures Score(content, scheme).Raised? <==>
              exists i :: 0 <= i < |scheme| && Occurs(scheme[i].keyword, content) && !scheme[i].weight.IsNumber()
  {
    if scheme != [] {
      var s' := scheme[..|scheme| - 1];
      var e := scheme[|scheme| - 1];
      ScoreRaisesIff(content, s');
      ScoreOfInsertion(content, s', e, []);
      assert s' + [e] + [] == scheme;
      assert s' + [] == s';
      if exists i :: 0 <= i < |scheme| && Occurs(scheme[i].keyword, content) && !scheme[i].weight.IsNumber() {
        var i :| 0 <= i < |scheme| && Occurs(scheme[i].keyword, content) && !scheme[i].weight.IsNumber();
        if i < |s'| {
          assert s'[i] == scheme[i];
        }
      }
      if exists i :: 0 <= i < |s'| && Occurs(s'[i].keyword, content) && !s'[i].weight.IsNumber() {
        var i :| 0 <= i < |s'| && Occurs(s'[i].keyword, content) && !s'[i].weight.IsNumber();
        assert scheme[i] == s'[i];
      }
    }
  }

  /** When no keyword of the scheme occurs in the content, the score is 0;
      in particular an empty scheme always scores 0. */
  lemma {:induction false} NoMatchScoresZero(content: string, scheme: MarkingScheme)
    requires forall i :: 0 <= i < |scheme| ==> !Occurs(scheme[i].keyword, content)
    ensures Matched(content, scheme) == []
    ensures Score(content, scheme) == Ok(0.0)
  {
    if scheme != [] {
      NoMatchScoresZero(content, scheme[..|scheme| - 1]);
    }
  }

  /** With numeric, non-negative weights the scoring function never raises, the score
      lies between 0 and the sum of all weights, and it reaches that sum when
      every keyword occurs. */
  lemma {:induction false} ScoreBounds(content: string, scheme: MarkingScheme)
    requires forall i :: 0 <= i < |scheme| ==> scheme[i].weight.IsNumber() && scheme[i].weight.Amount() >= 0.0
    ensures AllNumbers(Weights(scheme))
    ensures Score(content, scheme).Ok?
    ensures 0.0 <= Score(content, scheme).value <= Sum(Weights(scheme))
    ensures (forall i :: 0 <= i < |scheme| ==> Occurs(scheme[i].keyword, content)) ==>
              Score(content, scheme).value == Sum(Weights(scheme))
  {
    if scheme != [] {
      var s' := scheme[..|scheme| - 1];
      var e := scheme[|scheme| - 1];
      ScoreBounds(content, s');
      ScoreOfInsertion(content, s', e, []);
      assert s' + [e] + [] == scheme;
      assert s' + [] == s';
      var w := Weights(scheme);
      assert w[..|w| - 1] == Weights(s');
    }
  }

  /** The empty keyword occurs in any content, so its weight always counts. */
  lemma EmptyKeywordAlwaysMatches(content: string, w: Weight)
    requires w.IsNumber()
    ensures Occurs("", content)
    ensures Score(content, [Criterion("", w)]) == Ok(w.Amount())
  {
    assert OccursAt("", content, 0);
    var s := [Criterion("", w)];
    assert s == [] + [Criterion("", w)];
    MatchedSnoc(content, [], Criterion("", w));
    assert Matched(content, s) == [w];
    SumSnoc([], w);
  }

  /** The worked example of the scoring function: the scheme {"recursion": 5,
      "pointer": 3} scores 8 on any content holding both keywords, in either
      order, such as "This essay discusses recursion and pointer arithmetic.". */
  lemma TwoKeywordsScenario(content: string)
    requires Occurs("recursion", content) && Occurs("pointer", content)
    ensures Score(content, [Criterion("recursion", IntW(5)), Criterion("pointer", IntW(3))]) == Ok(8.0)
  {
    var first, second := Criterion("recursion", IntW(5)), Criterion("pointer", IntW(3));
    assert [first, second] == [] + [first] + [second];
    assert [] + [first] == [first];
    MatchedSnoc(content, [], first);
    MatchedSnoc(content, [first], second);
    SumSnoc([], IntW(5));
    SumSnoc([IntW(5)], IntW(3));
    assert [] + [IntW(5)] == [IntW(5)];
  }
}
