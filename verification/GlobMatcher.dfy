/** Agent-name globs: the backtracking matcher behind the agent hook registry.

    The loop remembers only the last '*' it passed and retries from there. Two readings of a
    pattern are defined here: `Matches` is the textbook meaning of '*' and '?', and
    `LiteralFirst` is the meaning the loop gives it, where a '*' facing a '*' in the name is
    taken as an ordinary character. */
module GlobMatcher {

  /** Textbook meaning: '*' stands for any run of characters, '?' for exactly one. */
  predicate Matches(p: string, n: string)
    decreases |p| + |n|
  {
    if p == [] then n == []
    else if p[0] == '*' then Matches(p[1..], n) || (n != [] && Matches(p, n[1..]))
    else n != [] && (p[0] == '?' || p[0] == n[0]) && Matches(p[1..], n[1..])
  }

  // ---- What that means ----

  /** A part of the name for each character of the pattern: any text for a star, one character for any other, and
      the same one unless it is a question mark. */
  predicate Fits(p: string, parts: seq<string>) {
    && |parts| == |p|
    && forall i :: 0 <= i < |p| ==> p[i] == '*' || (|parts[i]| == 1 && (p[i] == '?' || p[i] == parts[i][0]))
  }

  function Whole(parts: seq<string>): string {
    if parts == [] then "" else parts[0] + Whole(parts[1..])
  }

  lemma {:induction false} MatchSplits(p: string, n: string) returns (parts: seq<string>)
    requires Matches(p, n)
    ensures Fits(p, parts) && Whole(parts) == n
    decreases |p| + |n|
  {
    if p == [] {
      parts := [];
    } else if p[0] == '*' && !Matches(p[1..], n) {
      var rest := MatchSplits(p, n[1..]);
      parts := [[n[0]] + rest[0]] + rest[1..];
      assert parts[1..] == rest[1..] && forall i :: 0 < i < |parts| ==> parts[i] == rest[i];
      assert [n[0]] + rest[0] + Whole(rest[1..]) == [n[0]] + (rest[0] + Whole(rest[1..])) == n;
    } else {
      var first, left := if p[0] == '*' then "" else n[..1], if p[0] == '*' then n else n[1..];
      var rest := MatchSplits(p[1..], left);
      parts := [first] + rest;
      assert parts[1..] == rest && forall i :: 0 < i < |parts| ==> parts[i] == rest[i - 1];
      assert first + left == n;
    }
  }

  lemma {:induction false} FittingMatches(p: string, parts: seq<string>)
    requires Fits(p, parts)
    ensures Matches(p, Whole(parts))
    decreases |p|, if parts == [] then 0 else |parts[0]|
  {
    if p != [] {
      FittingMatches(p[1..], parts[1..]);
      if parts[0] != "" {
        assert Whole(parts)[0] == parts[0][0] && Whole(parts)[1..] == parts[0][1..] + Whole(parts[1..]);
        if p[0] == '*' {
          var less := [parts[0][1..]] + parts[1..];
          FittingMatches(p, less);
          assert less[1..] == parts[1..];
        } else {
          assert parts[0][1..] == "";
        }
      } else {
        assert Whole(parts) == Whole(parts[1..]);
      }
    }
  }

  /** A pattern matches exactly if the name can be cut into such parts. */
  lemma MatchesIff(p: string, n: string)
    ensures Matches(p, n) <==> exists parts :: Fits(p, parts) && Whole(parts) == n
  {
    if Matches(p, n) { var parts := MatchSplits(p, n); }
    if parts :| Fits(p, parts) && Whole(parts) == n { FittingMatches(p, parts); }
  }

  // ---- The order of tests in the code ----

  /** One pattern character accepts one name character without being a wildcard run. */
  predicate Accepts(c: char, d: char) {
    c == '?' || c == d
  }

  /** Meaning in which equality is tried before '*' is read as a wildcard run. */
  predicate LiteralFirst(p: string, n: string)
    decreases |p|, 0, 0
  {
    if p == [] then n == []
    else if n != [] && Accepts(p[0], n[0]) then LiteralFirst(p[1..], n[1..])
    else p[0] == '*' && SomeSuffix(p[1..], n)
  }

  /** `p` matches what is left of `n` after dropping some number of leading characters. */
  predicate SomeSuffix(p: string, n: string)
    decreases |p|, 1, |n|
  {
    LiteralFirst(p, n) || (n != [] && SomeSuffix(p, n[1..]))
  }

  lemma {:induction false} SuffixIntro(p: string, n: string, i: nat, j: nat)
    requires i <= j <= |n|
    requires LiteralFirst(p, n[j..]) || SomeSuffix(p, n[j..])
    ensures SomeSuffix(p, n[i..])
    decreases j - i
  {
    if i < j {
      SuffixIntro(p, n, i + 1, j);
      assert n[i..][1..] == n[i + 1..];
    }
  }

  lemma {:induction false} SuffixElim(p: string, n: string, i: nat) returns (j: nat)
    requires i <= |n| && SomeSuffix(p, n[i..])
    ensures i <= j <= |n| && LiteralFirst(p, n[j..])
    decreases |n| - i
  {
    if LiteralFirst(p, n[i..]) {
      j := i;
    } else {
      assert n[i..][1..] == n[i + 1..];
      j := SuffixElim(p, n, i + 1);
    }
  }

  /** Why one remembered star is enough. The pattern segment `p[a..b]` was accepted character
      by character on `n[s..t]`. However the segment could be placed from `s` on, what follows
      it in the pattern then matches from `t` or later. */
  lemma {:induction false} LaterPlacement(p: string, n: string, a: nat, b: nat, s: nat, t: nat, k: nat) returns (j: nat)
    requires a <= b <= |p| && s <= k <= |n| && t <= |n| && t - s == b - a
    requires forall i :: a <= i < b ==> Accepts(p[i], n[i - a + s])
    requires LiteralFirst(p[a..], n[k..])
    ensures t <= j <= |n| && LiteralFirst(p[b..], n[j..])
    decreases b - a
  {
    if a == b {
      j := k;
    } else {
      assert p[a..][1..] == p[a + 1..];
      if k < |n| && Accepts(p[a], n[k]) {
        assert n[k..][1..] == n[k + 1..];
        j := k + 1;
      } else {
        assert Accepts(p[a], n[s]);
        j := SuffixElim(p[a + 1..], n, k);
      }
      j := LaterPlacement(p, n, a + 1, b, s + 1, t, j);
    }
  }

  // ---- The two meanings compared ----

  lemma {:induction false} RunIsMatches(p: string, n: string)
    requires '*' !in n && p != [] && p[0] == '*'
    ensures SomeSuffix(p[1..], n) == Matches(p, n)
    decreases |p|, 0, |n|
  {
    LiteralFirstIsMatches(p[1..], n);
    if n != [] {
      RunIsMatches(p, n[1..]);
    }
  }

  /** For a name without '*' the loop decides the textbook meaning. */
  lemma {:induction false} LiteralFirstIsMatches(p: string, n: string)
    requires '*' !in n
    ensures LiteralFirst(p, n) == Matches(p, n)
    decreases |p|, 1, 0
  {
    if p != [] {
      if n != [] && Accepts(p[0], n[0]) {
        assert '*' !in n[1..];
        LiteralFirstIsMatches(p[1..], n[1..]);
      } else if p[0] == '*' {
        RunIsMatches(p, n);
      }
    }
  }

  function Anys(k: nat): (p: string)
    ensures |p| == k
  {
    seq(k, _ => '?')
  }

  lemma {:induction false} AnysMatchByLength(k: nat, n: string)
    ensures LiteralFirst(Anys(k), n) == Matches(Anys(k), n) == (|n| == k)
    decreases k
  {
    if k > 0 && n != [] {
      assert Anys(k)[1..] == Anys(k - 1);
      AnysMatchByLength(k - 1, n[1..]);
    }
  }

  lemma {:induction false} AnysThen(k: nat, p: string, n: string)
    requires k <= |n|
    ensures Matches(Anys(k) + p, n) == Matches(p, n[k..])
    ensures LiteralFirst(Anys(k) + p, n) == LiteralFirst(p, n[k..])
    decreases k
  {
    if k == 0 {
      assert Anys(k) + p == p;
    } else {
      assert (Anys(k) + p)[1..] == Anys(k - 1) + p;
      assert n[1..][k - 1..] == n[k..];
      AnysThen(k - 1, p, n[1..]);
    }
  }

  /** Every name holding a '*' has a pattern on which the two meanings part: the '*' before the
      position is spent on the name's own '*', leaving one '?' too many. */
  lemma StarInNameSplits(n: string, k: nat) returns (p: string)
    requires k < |n| && n[k] == '*'
    ensures Matches(p, n) && !LiteralFirst(p, n)
  {
    var tail := "*" + Anys(|n| - k);
    p := Anys(k) + tail;
    AnysThen(k, tail, n);
    assert tail[1..] == Anys(|n| - k);
    assert n[k..][1..] == n[k + 1..];
    AnysMatchByLength(|n| - k, n[k..]);
    AnysMatchByLength(|n| - k, n[k + 1..]);
  }

  /** The names on which the matcher can be trusted with any pattern are exactly those
      without '*'. */
  lemma TrustedNames(n: string)
    ensures (forall p :: LiteralFirst(p, n) == Matches(p, n)) <==> '*' !in n
  {
    if '*' in n {
      var k :| 0 <= k < |n| && n[k] == '*';
      var p := StarInNameSplits(n, k);
      assert LiteralFirst(p, n) != Matches(p, n);
    } else {
      forall p ensures LiteralFirst(p, n) == Matches(p, n) { LiteralFirstIsMatches(p, n); }
    }
  }

  // ---- The loop ----

  /** The last star passed, and the name position its next retry would extend it over. */
  datatype Star = NoStar | Star(at: nat, upTo: nat)

  /** What is still possible when the loop stands at (pi, ti): go on from here, or let the
      remembered star swallow at least one more character. */
  ghost predicate Remaining(p: string, n: string, pi: nat, ti: nat, star: Star)
    requires pi <= |p| && ti <= |n|
    requires star.Star? ==> star.at < |p|
  {
    LiteralFirst(p[pi..], n[ti..]) ||
    (star.Star? && star.upTo < |n| && SomeSuffix(p[star.at + 1..], n[star.upTo + 1..]))
  }

  /** The segment since the remembered star was accepted character by character. */
  ghost predicate Aligned(p: string, n: string, pi: nat, ti: nat, star: Star)
    requires pi <= |p| && ti <= |n|
  {
    star.Star? ==>
      && star.at < pi && star.upTo <= ti
      && p[star.at] == '*' && ti - star.upTo == pi - (star.at + 1)
      && forall i :: star.at < i < pi ==> Accepts(p[i], n[i - (star.at + 1) + star.upTo])
  }

  lemma AcceptingAChar(p: string, n: string, pi: nat, ti: nat, star: Star)
    requires pi < |p| && ti < |n| && Accepts(p[pi], n[ti]) && Aligned(p, n, pi, ti, star)
    ensures Aligned(p, n, pi + 1, ti + 1, star)
    ensures Remaining(p, n, pi, ti, star) == Remaining(p, n, pi + 1, ti + 1, star)
  {
    assert p[pi..][1..] == p[pi + 1..];
    assert n[ti..][1..] == n[ti + 1..];
  }

  lemma PassingAStar(p: string, n: string, pi: nat, ti: nat, star: Star)
    requires pi < |p| && ti < |n| && p[pi] == '*' && !Accepts(p[pi], n[ti])
    requires Aligned(p, n, pi, ti, star)
    ensures Aligned(p, n, pi + 1, ti, Star(pi, ti))
    ensures Remaining(p, n, pi, ti, star) == Remaining(p, n, pi + 1, ti, Star(pi, ti))
  {
    assert p[pi..][1..] == p[pi + 1..];
    assert n[ti..][1..] == n[ti + 1..];
    assert LiteralFirst(p[pi..], n[ti..]) == SomeSuffix(p[pi + 1..], n[ti..]);
    assert SomeSuffix(p[pi + 1..], n[ti..]) == Remaining(p, n, pi + 1, ti, Star(pi, ti));
    if star.Star? && star.upTo < |n| && SomeSuffix(p[star.at + 1..], n[star.upTo + 1..]) {
      OldStarAddsNothing(p, n, pi, ti, star);
    }
  }

  /** Whatever an older star could still give, the one just passed gives too. */
  lemma OldStarAddsNothing(p: string, n: string, pi: nat, ti: nat, star: Star)
    requires pi < |p| && ti < |n| && p[pi] == '*' && star.Star? && Aligned(p, n, pi, ti, star)
    requires star.upTo < |n| && SomeSuffix(p[star.at + 1..], n[star.upTo + 1..])
    ensures SomeSuffix(p[pi + 1..], n[ti..])
  {
    var k := SuffixElim(p[star.at + 1..], n, star.upTo + 1);
    var j := LaterPlacement(p, n, star.at + 1, pi, star.upTo, ti, k);
    assert p[pi..][1..] == p[pi + 1..];
    if j < |n| && Accepts(p[pi], n[j]) {
      assert n[j..][1..] == n[j + 1..];
      SuffixIntro(p[pi + 1..], n, ti, j + 1);
    } else {
      SuffixIntro(p[pi + 1..], n, ti, j);
    }
  }

  lemma Retrying(p: string, n: string, pi: nat, ti: nat, star: Star)
    requires pi <= |p| && ti < |n| && Aligned(p, n, pi, ti, star) && star.Star?
    requires !(pi < |p| && (p[pi] == '*' || Accepts(p[pi], n[ti])))
    ensures var again := Star(star.at, star.upTo + 1);
            Aligned(p, n, star.at + 1, again.upTo, again) &&
            Remaining(p, n, pi, ti, star) == Remaining(p, n, star.at + 1, again.upTo, again)
  {
    assert !LiteralFirst(p[pi..], n[ti..]);
    assert star.upTo + 1 < |n| ==> n[star.upTo + 1..][1..] == n[star.upTo + 2..];
  }

  lemma NameUsedUp(p: string, n: string, pi: nat, star: Star)
    requires pi <= |p| && Aligned(p, n, pi, |n|, star)
    ensures Remaining(p, n, pi, |n|, star) == LiteralFirst(p[pi..], [])
  {
    if star.Star? && star.upTo < |n| && SomeSuffix(p[star.at + 1..], n[star.upTo + 1..]) {
      var k := SuffixElim(p[star.at + 1..], n, star.upTo + 1);
      var j := LaterPlacement(p, n, star.at + 1, pi, star.upTo, |n|, k);
    }
  }

  lemma Stuck(p: string, n: string, pi: nat, ti: nat)
    requires pi <= |p| && ti < |n| && !(pi < |p| && (p[pi] == '*' || Accepts(p[pi], n[ti])))
    ensures !Remaining(p, n, pi, ti, NoStar)
  {
  }

  lemma TrailingStar(p: string, pi: nat)
    requires pi < |p| && p[pi] == '*'
    ensures LiteralFirst(p[pi..], []) == LiteralFirst(p[pi + 1..], [])
  {
    assert p[pi..][1..] == p[pi + 1..];
    assert SomeSuffix(p[pi + 1..], []) == LiteralFirst(p[pi + 1..], []);
  }

  lemma NothingToAccept(p: string, pi: nat)
    requires pi <= |p| && !(pi < |p| && p[pi] == '*')
    ensures LiteralFirst(p[pi..], []) == (pi == |p|)
  {
  }

  /** What the loop keeps: the answer is what is still possible from where it stands. */
  ghost predicate Deciding(p: string, n: string, pi: nat, ti: nat, star: Star) {
    && pi <= |p| && ti <= |n| && Aligned(p, n, pi, ti, star)
    && LiteralFirst(p, n) == Remaining(p, n, pi, ti, star)
  }

  lemma DecidingStarts(p: string, n: string)
    ensures Deciding(p, n, 0, 0, NoStar)
  {
    assert p[0..] == p && n[0..] == n;
  }

  lemma DecidingAccepts(p: string, n: string, pi: nat, ti: nat, star: Star)
    requires Deciding(p, n, pi, ti, star) && pi < |p| && ti < |n| && Accepts(p[pi], n[ti])
    ensures Deciding(p, n, pi + 1, ti + 1, star)
  {
    AcceptingAChar(p, n, pi, ti, star);
  }

  lemma DecidingPasses(p: string, n: string, pi: nat, ti: nat, star: Star)
    requires Deciding(p, n, pi, ti, star) && pi < |p| && ti < |n| && p[pi] == '*' && !Accepts(p[pi], n[ti])
    ensures Deciding(p, n, pi + 1, ti, Star(pi, ti))
  {
    PassingAStar(p, n, pi, ti, star);
  }

  lemma DecidingRetries(p: string, n: string, pi: nat, ti: nat, star: Star)
    requires Deciding(p, n, pi, ti, star) && ti < |n| && star.Star?
    requires !(pi < |p| && (p[pi] == '*' || Accepts(p[pi], n[ti])))
    ensures Deciding(p, n, star.at + 1, star.upTo + 1, Star(star.at, star.upTo + 1))
  {
    Retrying(p, n, pi, ti, star);
  }

  lemma DecidingStuck(p: string, n: string, pi: nat, ti: nat)
    requires Deciding(p, n, pi, ti, NoStar) && ti < |n| && !(pi < |p| && (p[pi] == '*' || Accepts(p[pi], n[ti])))
    ensures !LiteralFirst(p, n)
  {
    Stuck(p, n, pi, ti);
  }

  /** What the second loop keeps, with the name used up. */
  ghost predicate Ending(p: string, n: string, pi: nat) {
    pi <= |p| && LiteralFirst(p, n) == LiteralFirst(p[pi..], [])
  }

  lemma DecidingEnds(p: string, n: string, pi: nat, star: Star)
    requires Deciding(p, n, pi, |n|, star)
    ensures Ending(p, n, pi)
  {
    NameUsedUp(p, n, pi, star);
  }

  lemma EndingPasses(p: string, n: string, pi: nat)
    requires Ending(p, n, pi) && pi < |p| && p[pi] == '*'
    ensures Ending(p, n, pi + 1)
  {
    TrailingStar(p, pi);
  }

  lemma EndingEnds(p: string, n: string, pi: nat)
    requires Ending(p, n, pi) && !(pi < |p| && p[pi] == '*')
    ensures LiteralFirst(p, n) == (pi == |p|)
  {
    NothingToAccept(p, pi);
  }

  lemma WithoutStars(p: string, n: string)
    ensures '*' !in n ==> LiteralFirst(p, n) == Matches(p, n)
  {
    if '*' !in n { LiteralFirstIsMatches(p, n); }
  }

  /** The loop itself. It decides `LiteralFirst` for every pattern and every name. */
  method GlobMatch(pattern: string, name: string) returns (matched: bool)
    ensures matched == LiteralFirst(pattern, name)
    ensures '*' !in name ==> matched == Matches(pattern, name)
  {
    var pi: nat, ti: nat := 0, 0;
    var star := NoStar;
    DecidingStarts(pattern, name);
    while ti < |name|
      invariant Deciding(pattern, name, pi, ti, star)
      decreases |pattern| - (if star.Star? then star.at else -1),
                |name| - (if star.Star? then star.upTo else 0),
                |name| - ti
    {
      if pi < |pattern| && (pattern[pi] == '?' || pattern[pi] == name[ti]) {
        DecidingAccepts(pattern, name, pi, ti, star);
        pi, ti := pi + 1, ti + 1;
      } else if pi < |pattern| && pattern[pi] == '*' {
        DecidingPasses(pattern, name, pi, ti, star);
        star := Star(pi, ti);
        pi := pi + 1;
      } else if star.Star? {
        DecidingRetries(pattern, name, pi, ti, star);
        star := Star(star.at, star.upTo + 1);
        pi, ti := star.at + 1, star.upTo;
      } else {
        DecidingStuck(pattern, name, pi, ti);
        WithoutStars(pattern, name);
        return false;
      }
    }
    DecidingEnds(pattern, name, pi, star);
    WithoutStars(pattern, name);
    while pi < |pattern| && pattern[pi] == '*'
      invariant Ending(pattern, name, pi)
    {
      EndingPasses(pattern, name, pi);
      pi := pi + 1;
    }
    EndingEnds(pattern, name, pi);
    return pi == |pattern|;
  }
}
