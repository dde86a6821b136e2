/**
 The arithmetic of routing (`anthrouter/model_router.py`): scores, thresholds, the weighted
 blend and the midpoint that stands in for a missing system-prompt score.
 */
module RouterMath {
  import opened Common
  import opened OrderedDict

  /** Python's `round` to an integer: halves go to the even neighbour. */
  function RoundHalfEven(x: real): int {
    var n := x.Floor;
    var frac := x - n as real;
    if frac < 0.5 || (frac == 0.5 && n % 2 == 0) then n else n + 1
  }

  lemma RoundIsNearest(x: real)
    ensures -0.5 <= RoundHalfEven(x) as real - x <= 0.5
    ensures RoundHalfEven(x) as real - x in {-0.5, 0.5} ==> RoundHalfEven(x) % 2 == 0
  {
  }

  /** A value closer than a half to a range of integers rounds into it. */
  lemma RoundsInto(x: real, lo: int, hi: int)
    requires lo as real - 0.5 < x < hi as real + 0.5
    ensures lo <= RoundHalfEven(x) <= hi
  {
    RoundIsNearest(x);
  }

  lemma RoundIsMonotone(x: real, y: real)
    requires x <= y
    ensures RoundHalfEven(x) <= RoundHalfEven(y)
  {
    RoundIsNearest(x);
    RoundIsNearest(y);
  }

  // ---- Tiers -----------------------------------------------------------------

  datatype Tier = Trivial | Standard | Deep

  function Rank(t: Tier): nat {
    match t case Trivial => 0 case Standard => 1 case Deep => 2
  }

  /** `_score_to_tier` */
  function ScoreToTier(score: int, trivial: real, standard: real): Tier {
    if (score as real) < trivial then Trivial else if (score as real) < standard then Standard else Deep
  }

  lemma TierIsMonotone(a: int, b: int, trivial: real, standard: real)
    requires a <= b && trivial < standard
    ensures Rank(ScoreToTier(a, trivial, standard)) <= Rank(ScoreToTier(b, trivial, standard))
  {
  }

  // ---- The blend -------------------------------------------------------------

  /** What configuration validation lets through. */
  predicate ValidWeights(sys: real, user: real) {
    0.0 < sys <= 1.0 && 0.0 < user <= 1.0 && -0.000000001 < sys + user - 1.0 < 0.000000001
  }

  predicate ValidScore(score: int) {
    0 <= score <= 100
  }

  function Weighted(sysWeight: real, userWeight: real, sysScore: int, userScore: int): real {
    sysWeight * sysScore as real + userWeight * userScore as real
  }

  function Blend(sysWeight: real, userWeight: real, sysScore: int, userScore: int): int {
    RoundHalfEven(Weighted(sysWeight, userWeight, sysScore, userScore))
  }

  lemma Product(x: real, y: real)
    requires x >= 0.0 && y >= 0.0
    ensures x * y >= 0.0
  {
  }

  /** The weights miss one by too little to move a score by half a point. */
  lemma ExcessIsSmall(excess: real, score: real)
    requires -0.000000001 < excess < 0.000000001 && 0.0 <= score <= 100.0
    ensures -0.1 < excess * score < 0.1
  {
    var miss, above, below := excess * score, 0.000000001 - excess, 0.000000001 + excess;
    Product(above, score);
    assert above * score == 0.000000001 * score - miss;
    assert miss <= 0.000000001 * score;
    Product(below, score);
    assert below * score == 0.000000001 * score + miss;
    assert miss >= -0.000000001 * score;
  }

  lemma Distributed(w: real, v: real, excess: real, x: real)
    requires excess == w + v - 1.0
    ensures excess * x == w * x + v * x - x
  {
    assert (w + v - 1.0) * x == w * x + v * x - x;
  }

  lemma SumAbove(wa: real, va: real, vb: real, miss: real, a: real)
    requires miss == wa + va - a && miss > -0.1 && va <= vb
    ensures a - 0.1 < wa + vb
  {
  }

  lemma SumBelow(wa: real, wb: real, vb: real, miss: real, b: real)
    requires miss == wb + vb - b && miss < 0.1 && wa <= wb
    ensures wa + vb < b + 0.1
  {
  }

  lemma WeightedAbove(w: real, v: real, excess: real, a: real, b: real)
    requires ValidWeights(w, v) && excess == w + v - 1.0 && 0.0 <= a <= b <= 100.0
    ensures a - 0.1 < w * a + v * b
  {
    WeightKeepsOrder(v, a, b);
    ExcessIsSmall(excess, a);
    Distributed(w, v, excess, a);
    SumAbove(w * a, v * a, v * b, excess * a, a);
  }

  lemma WeightedBelow(w: real, v: real, excess: real, a: real, b: real)
    requires ValidWeights(w, v) && excess == w + v - 1.0 && 0.0 <= a <= b <= 100.0
    ensures w * a + v * b < b + 0.1
  {
    WeightKeepsOrder(w, a, b);
    ExcessIsSmall(excess, b);
    Distributed(w, v, excess, b);
    SumBelow(w * a, w * b, v * b, excess * b, b);
  }

  /** The blend lies between the two scores although the weights only nearly sum to one. */
  lemma BlendIsBetween(sysWeight: real, userWeight: real, sysScore: int, userScore: int)
    requires ValidWeights(sysWeight, userWeight) && ValidScore(sysScore) && ValidScore(userScore)
    ensures var blend := Blend(sysWeight, userWeight, sysScore, userScore);
            if sysScore <= userScore then sysScore <= blend <= userScore else userScore <= blend <= sysScore
  {
    var a, b := sysScore as real, userScore as real;
    var weighted := Weighted(sysWeight, userWeight, sysScore, userScore);
    if sysScore <= userScore {
      WeightedAbove(sysWeight, userWeight, sysWeight + userWeight - 1.0, a, b);
      WeightedBelow(sysWeight, userWeight, sysWeight + userWeight - 1.0, a, b);
      RoundsInto(weighted, sysScore, userScore);
    } else {
      WeightedAbove(userWeight, sysWeight, userWeight + sysWeight - 1.0, b, a);
      WeightedBelow(userWeight, sysWeight, userWeight + sysWeight - 1.0, b, a);
      RoundsInto(weighted, userScore, sysScore);
    }
  }

  lemma WeightKeepsOrder(w: real, a: real, b: real)
    requires w > 0.0 && a <= b
    ensures w * a <= w * b
  {
    Product(w, b - a);
    assert w * (b - a) == w * b - w * a;
  }

  lemma SumKeepsOrder(w: real, v: real, a: real, a': real, b: real, b': real)
    requires w > 0.0 && v > 0.0 && a <= a' && b <= b'
    ensures w * a + v * b <= w * a' + v * b'
  {
    var p, p', q, q' := w * a, w * a', v * b, v * b';
    WeightKeepsOrder(w, a, a');
    assert p <= p';
    WeightKeepsOrder(v, b, b');
    assert q <= q';
  }

  /** A higher score never lowers the blend. */
  lemma BlendIsMonotone(sysWeight: real, userWeight: real, sys: int, sys': int, user: int, user': int)
    requires ValidWeights(sysWeight, userWeight) && sys <= sys' && user <= user'
    ensures Blend(sysWeight, userWeight, sys, user) <= Blend(sysWeight, userWeight, sys', user')
  {
    SumKeepsOrder(sysWeight, userWeight, sys as real, sys' as real, user as real, user' as real);
    RoundIsMonotone(Weighted(sysWeight, userWeight, sys, user), Weighted(sysWeight, userWeight, sys', user'));
  }

  /** The blend is the integer nearest to the two scores weighted each with its own weight, the even one of two. */
  lemma BlendIsNearest(sysWeight: real, userWeight: real, sysScore: int, userScore: int)
    ensures var blend := Blend(sysWeight, userWeight, sysScore, userScore);
            var off := blend as real - (sysScore as real * sysWeight + userScore as real * userWeight);
            -0.5 <= off <= 0.5 && (off in {-0.5, 0.5} ==> blend % 2 == 0)
  {
    RoundIsNearest(Weighted(sysWeight, userWeight, sysScore, userScore));
  }

  /** A tier reaches from its threshold, which is part of it, to the next one. */
  lemma TierMeans(score: int, trivial: real, standard: real)
    requires trivial < standard
    ensures match ScoreToTier(score, trivial, standard)
            case Trivial => score as real < trivial
            case Standard => trivial <= score as real < standard
            case Deep => standard <= score as real
  {
  }

  /** The tier routed to lies between the tiers of the two scores. */
  lemma BlendedTierIsBetween(sysWeight: real, userWeight: real, sysScore: int, userScore: int, trivial: real,
                             standard: real)
    requires ValidWeights(sysWeight, userWeight) && ValidScore(sysScore) && ValidScore(userScore) && trivial < standard
    ensures var sys := Rank(ScoreToTier(sysScore, trivial, standard));
            var user := Rank(ScoreToTier(userScore, trivial, standard));
            var tier := Rank(ScoreToTier(Blend(sysWeight, userWeight, sysScore, userScore), trivial, standard));
            if sysScore <= userScore then sys <= tier <= user else user <= tier <= sys
  {
    BlendIsBetween(sysWeight, userWeight, sysScore, userScore);
    var blend := Blend(sysWeight, userWeight, sysScore, userScore);
    if sysScore <= userScore {
      TierIsMonotone(sysScore, blend, trivial, standard);
      TierIsMonotone(blend, userScore, trivial, standard);
    } else {
      TierIsMonotone(userScore, blend, trivial, standard);
      TierIsMonotone(blend, sysScore, trivial, standard);
    }
  }

  // ---- The midpoint ----------------------------------------------------------

  function Midpoint(trivial: real, standard: real): int {
    RoundHalfEven((trivial + standard) / 2.0)
  }

  /** The least integer that is not below `x`. */
  function Ceiling(x: real): (n: int)
    ensures n as real - 1.0 < x <= n as real
  {
    if x.Floor as real == x then x.Floor else x.Floor + 1
  }

  predicate BandHoldsInteger(trivial: real, standard: real) {
    (Ceiling(trivial) as real) < standard
  }

  /**
   The midpoint is meant to be a standard score whatever the thresholds.  It is one if and
   only if the standard band holds an integer, and the thresholds are not an odd integer and
   its successor, where the half is rounded up and out of the band.
   */
  lemma MidpointIsStandard(trivial: real, standard: real)
    requires trivial < standard
    ensures ScoreToTier(Midpoint(trivial, standard), trivial, standard) == Standard <==>
              BandHoldsInteger(trivial, standard)
              && !(standard == trivial + 1.0 && trivial == trivial.Floor as real && trivial.Floor % 2 == 1)
  {
    var mid, n := (trivial + standard) / 2.0, Ceiling(trivial);
    RoundIsNearest(mid);
    if standard - trivial <= 1.0 && BandHoldsInteger(trivial, standard) {
      assert -0.5 <= n as real - mid < 0.5;
      if n as real - mid > -0.5 {
        RoundsInto(mid, n, n);
      } else {
        assert trivial == n as real && mid == n as real + 0.5 && mid.Floor == n;
      }
    }
  }

  /** It is whenever the thresholds differ by more than one; one is not enough. */
  lemma WideBandHoldsMidpoint(trivial: real, standard: real)
    requires standard > trivial + 1.0
    ensures ScoreToTier(Midpoint(trivial, standard), trivial, standard) == Standard
    ensures Midpoint(1.0, 2.0) == 2 && ScoreToTier(2, 1.0, 2.0) == Deep
  {
    RoundIsNearest((trivial + standard) / 2.0);
    assert (1.0 + 2.0) / 2.0 == 1.5 && 1.5.Floor == 1;
  }

  // ---- The score cache -------------------------------------------------------

  /** What a call to the classifier brings: nothing when it fails or its answer is no score. */
  type Answer = Option<int>

  /** The score a question finds in the cache, or is answered and caches. */
  function ScoreUsed(cache: Dict<string, int>, preview: string, sha: string, answer: Answer): Option<int> {
    if preview == "" || sha == "" then None else if sha in cache.items then Some(cache.items[sha]) else answer
  }

  /** The cache after a question: a hit moves its entry to the end, a success is cached there. */
  function CacheAfter(cap: nat, cache: Dict<string, int>, preview: string, sha: string,
                      answer: Answer): Dict<string, int>
    requires cache.Valid() && cap >= 1
  {
    var used := ScoreUsed(cache, preview, sha, answer);
    if used == None then cache
    else if sha in cache.items then cache.MoveToEnd(sha)
    else cache.Put(cap, sha, used.value)
  }

  class SystemPromptScores {
    const cacheSize: nat
    var cache: Dict<string, int>

    ghost predicate Valid()
      reads this
    {
      cacheSize >= 1 && cache.Valid() && |cache.order| <= cacheSize
    }

    constructor (cacheSize: nat)
      requires cacheSize >= 1
      ensures Valid() && cache == Empty() && this.cacheSize == cacheSize
    {
      this.cacheSize, cache := cacheSize, Empty();
    }

    /**
     `_classify_system_prompt`: a cached score spares the call, a success is cached, and an
     absent prompt or a failure gives the midpoint and leaves the cache alone.
     */
    method Classify(preview: string, sha: string, trivial: real, standard: real, answer: Answer)
      returns (score: int, failed: bool, called: bool)
      requires Valid()
      modifies this`cache
      ensures Valid()
      ensures var known := if sha != "" then old(cache).Get(sha) else None;
              if preview == "" then score == Midpoint(trivial, standard) && !failed && !called && cache == old(cache)
              else if known.Some? then score == known.value && !failed && !called && cache == old(cache).MoveToEnd(sha)
              else if answer.Some? then score == answer.value && !failed && called
                && cache == (if sha != "" then old(cache).Put(cacheSize, sha, answer.value) else old(cache))
              else score == Midpoint(trivial, standard) && failed && called && cache == old(cache)
      ensures cache == CacheAfter(cacheSize, old(cache), preview, sha, answer)
    {
      var midpoint := Midpoint(trivial, standard);
      if preview == "" {
        return midpoint, false, false;
      }
      if sha != "" && sha in cache.items {
        score := cache.items[sha];
        HitKeepsValid(cache, sha);
        cache := cache.MoveToEnd(sha);
        return score, false, false;
      }
      if answer == None {
        return midpoint, true, true;
      }
      score := answer.value;
      if sha != "" {
        PutOrder(cache, cacheSize, sha, score);
        var grown := cache.Assign(sha, score).MoveToEnd(sha);
        NewThenEvict(cache, cacheSize, sha, score);
        cache := if |grown.order| > cacheSize then Dict(grown.order[1..], grown.items - {grown.order[0]}) else grown;
      }
      return score, false, true;
    }
  }

  lemma HitKeepsValid(cache: Dict<string, int>, sha: string)
    requires cache.Valid() && sha in cache.items
    ensures cache.MoveToEnd(sha).Valid() && |cache.MoveToEnd(sha).order| == |cache.order|
  {
    InElements(cache.order, sha);
    WithoutKeepsDistinct(cache.order, sha);
    InWithout(cache.order, sha, sha);
    AppendKeepsDistinct(Without(cache.order, sha), sha);
    ElementsMoveToEnd(cache.order, sha);
  }

  /** Evicting after the insertion is evicting before it. */
  lemma NewThenEvict(cache: Dict<string, int>, cap: nat, sha: string, score: int)
    requires cache.Valid() && cap >= 1 && |cache.order| <= cap && sha !in cache.items
    ensures var grown := cache.Assign(sha, score).MoveToEnd(sha);
            cache.Put(cap, sha, score)
            == if |grown.order| > cap then Dict(grown.order[1..], grown.items - {grown.order[0]}) else grown
  {
    InElements(cache.order, sha);
    WithoutAppended(cache.order, sha);
    if |cache.order| == cap {
      var rest := cache.order[1..];
      InElements(rest, sha);
      WithoutAppended(rest, sha);
      assert (cache.order + [sha])[1..] == rest + [sha];
      assert cache.items[sha := score] - {cache.order[0]} == (cache.items - {cache.order[0]})[sha := score];
    }
  }

  // ---- The cache over any sequence of questions ------------------------------

  datatype Question = Question(preview: string, sha: string, answer: Answer)

  /** A hit is a write of the score that is there. */
  lemma HitIsWrite(cap: nat, cache: Dict<string, int>, sha: string)
    requires cache.Valid() && cap >= 1 && sha in cache.items
    ensures cache.MoveToEnd(sha) == cache.Put(cap, sha, cache.items[sha])
  {
    assert cache.items[sha := cache.items[sha]] == cache.items;
  }

  lemma UseIsWrite(cap: nat, cache: Dict<string, int>, q: Question)
    requires cache.Valid() && cap >= 1
    ensures var used := ScoreUsed(cache, q.preview, q.sha, q.answer);
            CacheAfter(cap, cache, q.preview, q.sha, q.answer)
            == if used == None then cache else cache.Put(cap, q.sha, used.value)
  {
    if q.sha in cache.items {
      HitIsWrite(cap, cache, q.sha);
    }
  }

  lemma UseKeepsValid(cap: nat, cache: Dict<string, int>, q: Question)
    requires cache.Valid() && cap >= 1
    ensures CacheAfter(cap, cache, q.preview, q.sha, q.answer).Valid()
  {
    UseIsWrite(cap, cache, q);
    var used := ScoreUsed(cache, q.preview, q.sha, q.answer);
    if used.Some? {
      PutOrder(cache, cap, q.sha, used.value);
    }
  }

  function CacheOf(cap: nat, qs: seq<Question>): (r: Dict<string, int>)
    requires cap >= 1
    ensures r.Valid()
  {
    if qs == [] then Empty()
    else
      var before, q := CacheOf(cap, qs[..|qs| - 1]), qs[|qs| - 1];
      UseKeepsValid(cap, before, q);
      CacheAfter(cap, before, q.preview, q.sha, q.answer)
  }

  /** The hits and the successes of a run, in order. */
  function Uses(cap: nat, qs: seq<Question>): seq<Write<string, int>>
    requires cap >= 1
  {
    if qs == [] then []
    else
      var before, q := Uses(cap, qs[..|qs| - 1]), qs[|qs| - 1];
      var used := ScoreUsed(CacheOf(cap, qs[..|qs| - 1]), q.preview, q.sha, q.answer);
      before + if used == None then [] else [Write(q.sha, used.value)]
  }

  lemma WriteReplayed(cap: nat, h: seq<Write<string, int>>, w: Write<string, int>)
    requires cap >= 1
    ensures Replay(cap, h + [w]) == Replay(cap, h).Put(cap, w.key, w.value)
  {
    assert (h + [w])[..|h|] == h;
  }

  lemma {:induction false} CacheIsReplay(cap: nat, qs: seq<Question>)
    requires cap >= 1
    ensures CacheOf(cap, qs) == Replay(cap, Uses(cap, qs))
  {
    if qs != [] {
      var init, q := qs[..|qs| - 1], qs[|qs| - 1];
      var h := Uses(cap, init);
      CacheIsReplay(cap, init);
      UseIsWrite(cap, CacheOf(cap, init), q);
      var used := ScoreUsed(CacheOf(cap, init), q.preview, q.sha, q.answer);
      if used == None {
        assert h + [] == h;
      } else {
        WriteReplayed(cap, h, Write(q.sha, used.value));
      }
    }
  }

  /**
   Over every sequence of questions the cache is least-recently-used: a score is cached if and
   only if it has been used, by a hit or a success, and fewer than `cap` other prompts have been
   used since; and it is the score of its last use.
   */
  lemma KeepsTheLatelyUsed(cap: nat, qs: seq<Question>, cache: Dict<string, int>, uses: seq<Write<string, int>>,
                           sha: string)
    requires cap >= 1 && cache == CacheOf(cap, qs) && uses == Uses(cap, qs)
    ensures HeldWhileRecent(cap, uses, cache, sha)
  {
    CacheIsReplay(cap, qs);
    HoldsMostRecent(cap, uses, cache, sha);
  }
}
