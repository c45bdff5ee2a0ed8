/** The exact two-sided McNemar p-value (backend/bench/compare.py), over reals, against the chance it stands for:
    of a fair coin falling at least as lopsidedly. */
module McNemar {

  function Min(a: int, b: int): int { if a <= b then a else b }

  /** math.comb. */
  function Comb(n: nat, k: nat): nat {
    if k == 0 then 1 else if n == 0 then 0 else Comb(n - 1, k - 1) + Comb(n - 1, k)
  }

  /** The sum of comb(flips, i) for i in range(few + 1). */
  function Tail(flips: nat, few: nat): nat {
    Comb(flips, few) + if few == 0 then 0 else Tail(flips, few - 1)
  }

  /** 0.5 ** n. */
  function Halved(n: nat): (share: real)
    ensures 0.0 < share <= 1.0
  {
    if n == 0 then 1.0 else 0.5 * Halved(n - 1)
  }

  function TwiceTheTail(worse: nat, better: nat): real {
    2.0 * (Tail(worse + better, Min(worse, better)) as real * Halved(worse + better))
  }

  function P(worse: nat, better: nat): real {
    if worse + better == 0 then 1.0
    else if TwiceTheTail(worse, better) < 1.0 then TwiceTheTail(worse, better) else 1.0
  }

  /** How likely a fair coin, thrown this many more times, leaves at most `few` of one of its sides. */
  function Chance(throws: nat, heads: nat, tails: nat, few: nat): real {
    if throws == 0 then if Min(heads, tails) <= few then 1.0 else 0.0
    else 0.5 * Chance(throws - 1, heads + 1, tails, few) + 0.5 * Chance(throws - 1, heads, tails + 1, few)
  }

  // ---- the tail, thrown one coin at a time ----

  /** Tail with no lower end: 0 below 0, and the whole row above it. */
  function AtMost(n: nat, k: int): nat { if k < 0 then 0 else Tail(n, k) }

  function TwoToThe(n: nat): (power: nat)
    ensures 1 <= power
  {
    if n == 0 then 1 else 2 * TwoToThe(n - 1)
  }

  lemma {:induction false} AtMostOfNone(k: int)
    ensures AtMost(0, k) == if k < 0 then 0 else 1
  {
    if k > 0 { AtMostOfNone(k - 1); }
  }

  lemma {:induction false} OneMoreThrow(n: nat, k: int)
    requires n >= 1
    ensures AtMost(n, k) == AtMost(n - 1, k) + AtMost(n - 1, k - 1)
  {
    if k > 0 { OneMoreThrow(n, k - 1); }
  }

  /** At most k heads, or at most n - k - 1 tails, and not both. */
  lemma {:induction false} Complement(n: nat, k: int)
    ensures AtMost(n, k) + AtMost(n, n - k - 1) == TwoToThe(n)
  {
    if n == 0 {
      AtMostOfNone(k);
      AtMostOfNone(-k - 1);
    } else {
      OneMoreThrow(n, k);
      OneMoreThrow(n, n - k - 1);
      Complement(n - 1, k);
      Complement(n - 1, k - 1);
    }
  }

  lemma {:induction false} CombPositive(n: nat, k: nat)
    requires k <= n
    ensures Comb(n, k) >= 1
  {
    if 0 < k { CombPositive(n - 1, k - 1); }
  }

  /** A longer tail holds more, as long as the row goes on. */
  lemma {:induction false} TailGrows(n: nat, few: nat, more: nat)
    requires few < more <= n
    ensures Tail(n, few) < Tail(n, more)
  {
    CombPositive(n, more);
    if few < more - 1 { TailGrows(n, few, more - 1); }
  }

  /** So many of the outcomes, as a share of them all. */
  function Share(throws: nat, outcomes: nat): real {
    if throws == 0 then outcomes as real else 0.5 * Share(throws - 1, outcomes)
  }

  lemma {:induction false} SharesAdd(n: nat, x: nat, y: nat)
    ensures Share(n, x + y) == Share(n, x) + Share(n, y)
  {
    if n > 0 { SharesAdd(n - 1, x, y); }
  }

  lemma {:induction false} SharesInOrder(n: nat, x: nat, y: nat)
    ensures x < y <==> Share(n, x) < Share(n, y)
  {
    if n > 0 { SharesInOrder(n - 1, x, y); }
  }

  lemma {:induction false} TheWholeShare(n: nat)
    ensures Share(n, TwoToThe(n)) == 1.0
  {
    if n > 0 {
      TheWholeShare(n - 1);
      SharesAdd(n - 1, TwoToThe(n - 1), TwoToThe(n - 1));
    }
  }

  lemma {:induction false} ShareIsHalved(n: nat, outcomes: nat)
    ensures outcomes as real * Halved(n) == Share(n, outcomes)
  {
    if n > 0 {
      ShareIsHalved(n - 1, outcomes);
      assert outcomes as real * (0.5 * Halved(n - 1)) == 0.5 * (outcomes as real * Halved(n - 1));
    }
  }

  lemma TwiceIsShare(worse: nat, better: nat)
    ensures TwiceTheTail(worse, better) == Share(worse + better, 2 * AtMost(worse + better, Min(worse, better)))
  {
    var n := worse + better;
    var tail := Tail(n, Min(worse, better));
    ShareIsHalved(n, tail);
    SharesAdd(n, tail, tail);
    assert 2 * tail == tail + tail;
  }

  // ---- what the p-value is ----

  /** While the two ends cannot meet, the chance is that of one end and that of the other. */
  lemma {:induction false} TwoTails(throws: nat, heads: nat, tails: nat, few: nat)
    requires 2 * few < throws + heads + tails
    ensures Chance(throws, heads, tails, few) == Share(throws, AtMost(throws, few - heads) + AtMost(throws, few - tails))
    decreases throws
  {
    if throws == 0 {
      AtMostOfNone(few - heads);
      AtMostOfNone(few - tails);
    } else {
      TwoTails(throws - 1, heads + 1, tails, few);
      TwoTails(throws - 1, heads, tails + 1, few);
      OneMoreThrow(throws, few - heads);
      OneMoreThrow(throws, few - tails);
      SharesAdd(throws - 1, AtMost(throws - 1, few - heads - 1) + AtMost(throws - 1, few - tails),
                AtMost(throws - 1, few - heads) + AtMost(throws - 1, few - tails - 1));
    }
  }

  lemma {:induction false} Certain(throws: nat, heads: nat, tails: nat, few: nat)
    requires throws + heads + tails <= 2 * few + 1
    ensures Chance(throws, heads, tails, few) == 1.0
    decreases throws
  {
    if throws > 0 {
      Certain(throws - 1, heads + 1, tails, few);
      Certain(throws - 1, heads, tails + 1, few);
    }
  }

  /** The clamp bites exactly when as many got worse as better. */
  lemma ClampBites(worse: nat, better: nat)
    requires worse + better > 0
    ensures TwiceTheTail(worse, better) > 1.0 <==> worse == better
  {
    var n, few := worse + better, Min(worse, better);
    TwiceIsShare(worse, better);
    TheWholeShare(n);
    SharesInOrder(n, TwoToThe(n), 2 * AtMost(n, few));
    Complement(n, few);
    if worse == better {
      TailGrows(n, few - 1, few);
    } else if few < n - few - 1 {
      TailGrows(n, few, n - few - 1);
    }
  }

  /** The p-value is the chance of a split at least as lopsided, whichever way it leans. */
  lemma ExactlyTheChance(worse: nat, better: nat)
    ensures P(worse, better) == Chance(worse + better, 0, 0, Min(worse, better))
  {
    var n, few := worse + better, Min(worse, better);
    if worse == better {
      Certain(n, 0, 0, few);
      if n > 0 { ClampBites(worse, better); }
    } else {
      TwoTails(n, 0, 0, few);
      TwiceIsShare(worse, better);
      ClampBites(worse, better);
    }
  }

  /** A p-value is a probability, never 0, the same whichever of the two runs is called the baseline. */
  lemma IsAProbability(worse: nat, better: nat)
    ensures 0.0 < P(worse, better) <= 1.0 && P(worse, better) == P(better, worse)
  {
    var n, few := worse + better, Min(worse, better);
    CombPositive(n, few);
    TwiceIsShare(worse, better);
    SharesInOrder(n, 0, 2 * AtMost(n, few));
    SharesAdd(n, 0, 0);
    assert better + worse == n && Min(better, worse) == few;
  }

  /** For as many flips, the more lopsided split has the smaller p-value. */
  lemma MoreLopsided(worse: nat, better: nat, worse': nat, better': nat)
    requires worse + better == worse' + better'
    ensures P(worse, better) < P(worse', better') <==> Min(worse, better) < Min(worse', better')
  {
    if Min(worse, better) < Min(worse', better') {
      Smaller(worse, better, worse', better');
    } else if Min(worse', better') < Min(worse, better) {
      Smaller(worse', better', worse, better);
    }
  }

  lemma Smaller(worse: nat, better: nat, worse': nat, better': nat)
    requires worse + better == worse' + better' && Min(worse, better) < Min(worse', better')
    ensures P(worse, better) < P(worse', better')
  {
    var n, few, more := worse + better, Min(worse, better), Min(worse', better');
    TailGrows(n, few, more);
    TwiceIsShare(worse, better);
    TwiceIsShare(worse', better');
    SharesInOrder(n, 2 * AtMost(n, few), 2 * AtMost(n, more));
    TheWholeShare(n);
    SharesInOrder(n, 2 * AtMost(n, few), TwoToThe(n));
    Complement(n, few);
    if few < n - few - 1 { TailGrows(n, few, n - few - 1); }
  }
}
