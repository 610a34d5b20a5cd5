/** kc.mega.move.models.APMFlattener: imitates a symbolic pattern matcher.
    The enemy-relative movement history is a string of symbols, newest
    first; a wave's own pattern is searched for in the history, ever shorter
    until enough matches are found, and each match votes for the bearing
    offset the symbols after it would have produced. */
module APMFlatteners {
  import opened Wrappers
  import opened MathUtils
  import opened GFBins
  import opened WaveModel

  const MAX_HISTORY_SIZE: nat := 30000
  const MIN_TICKS_AHEAD: nat := 64
  const MAX_MATCH_LEN: nat := 40

  /** The flattener's state: the symbol history (newest first) and the time
      of the last turn. */
  datatype APM = APM(history: string, gameTime: int)

  /** What getDangers reads of a WaveWithFeatures besides the wave: its
      pattern string, distance and bullet speed, and the bearing offset
      prevAbsoluteBearing - absoluteBearing. */
  datatype APMQuery = APMQuery(pattern: string, distance: real, speed: real, bearingOffset: real)

  /** APMFlattener.onTurn: the new symbol goes first and the history is cut
      to MAX_HISTORY_SIZE symbols, dropping the oldest. */
  function OnTurn(a: APM, symbol: char, gameTime: int): (r: APM)
    ensures r.gameTime == gameTime
    ensures |r.history| == MinInt(|a.history| + 1, MAX_HISTORY_SIZE)
    ensures r.history[0] == symbol && r.history[1..] == a.history[..|r.history| - 1]
  {
    var h := [symbol] + a.history;
    APM(if |h| > MAX_HISTORY_SIZE then h[..MAX_HISTORY_SIZE] else h, gameTime)
  }

  /** `p` occurs in `h` at position `k`. */
  predicate OccursAt(h: string, p: string, k: int) {
    0 <= k && k + |p| <= |h| && h[k..k + |p|] == p
  }

  /** The first occurrence of `p` in `h` at or after `k`, or -1. */
  function FirstOccurrence(h: string, p: string, k: nat): (r: int)
    ensures r == -1 || (k <= r && OccursAt(h, p, r))
    ensures forall j :: k <= j && (r == -1 || j < r) ==> !OccursAt(h, p, j)
    decreases |h| - k
  {
    if k + |p| > |h| then -1
    else if h[k..k + |p|] == p then k
    else FirstOccurrence(h, p, k + 1)
  }

  /** String.indexOf(p, from): a start at or past the end finds only the
      empty string, at the end; a negative start counts from 0. */
  function IndexOf(h: string, p: string, from: int): (r: int)
    ensures r == -1 || OccursAt(h, p, r)
    ensures r >= 0 ==> r >= from || (|p| == 0 && r == |h|)
    ensures r >= 0 && from < |h| ==> forall j :: MaxInt(from, 0) <= j < r ==> !OccursAt(h, p, j)
    ensures r == -1 ==> forall j :: MaxInt(from, 0) <= j ==> !OccursAt(h, p, j)
  {
    if from >= |h| then (if |p| == 0 then |h| else -1)
    else FirstOccurrence(h, p, MaxInt(from, 0))
  }

  /** The inner loop of getDangers: up to `need` positions found by
      repeated indexOf, each search starting one past the last match; it
      stops at the first search that does not return a positive index. */
  function FindMatches(h: string, p: string, from: int, need: nat): (ps: seq<int>)
    ensures |ps| <= need
    ensures forall j :: 0 <= j < |ps| ==> 0 < ps[j] && OccursAt(h, p, ps[j])
    decreases need
  {
    if need == 0 then []
    else
      var pos := IndexOf(h, p, from);
      if pos > 0 then [pos] + FindMatches(h, p, pos + 1, need - 1) else []
  }

  /** The matches are successive indexOf answers, so none inside the searched
      stretch of the history is skipped. */
  lemma FindMatchesAreSuccessive(h: string, p: string, from: int, need: nat)
    ensures var ps := FindMatches(h, p, from, need);
            && (|ps| > 0 ==> ps[0] == IndexOf(h, p, from))
            && (forall j :: 0 < j < |ps| ==> ps[j] == IndexOf(h, p, ps[j - 1] + 1))
            && (|ps| > 0 ==> forall k :: MaxInt(from, 0) <= k <= ps[|ps| - 1] && k < |h| && OccursAt(h, p, k) ==> k in ps)
  {
    var ps := FindMatches(h, p, from, need);
    forall j | 0 < j < |ps|
      ensures ps[j] == IndexOf(h, p, ps[j - 1] + 1)
    {
      FindMatchesChain(h, p, from, need, j);
    }
    forall k | |ps| > 0 && MaxInt(from, 0) <= k <= ps[|ps| - 1] && k < |h| && OccursAt(h, p, k)
      ensures k in ps
    {
      FindMatchesCover(h, p, from, need, k);
    }
  }

  /** Each match after the first is the next indexOf answer past the one before. */
  lemma {:induction false} FindMatchesChain(h: string, p: string, from: int, need: nat, j: int)
    requires 0 < j < |FindMatches(h, p, from, need)|
    ensures var ps := FindMatches(h, p, from, need); ps[j] == IndexOf(h, p, ps[j - 1] + 1)
    decreases need
  {
    var pos := IndexOf(h, p, from);
    var rest := FindMatches(h, p, pos + 1, need - 1);
    var ps := FindMatches(h, p, from, need);
    assert ps == [pos] + rest;
    if j > 1 {
      FindMatchesChain(h, p, pos + 1, need - 1, j - 1);
      assert ps[j] == rest[j - 1] && ps[j - 1] == rest[j - 2];
    } else {
      assert ps[1] == rest[0] && ps[0] == pos;
    }
  }

  /** An occurrence between the start and the last match is one of the matches. */
  lemma FindMatchesCover(h: string, p: string, from: int, need: nat, k: int)
    requires var ps := FindMatches(h, p, from, need);
             |ps| > 0 && MaxInt(from, 0) <= k <= ps[|ps| - 1] && k < |h| && OccursAt(h, p, k)
    ensures k in FindMatches(h, p, from, need)
  {
    LastMatchListed(h, p, from, need);
    ListedUpTo(h, p, from, need, k);
    ListedIsMatch(h, p, from, need, k);
  }

  /** `k` is one of the successive indexOf answers FindMatches collects. */
  predicate Listed(h: string, p: string, from: int, need: nat, k: int)
    decreases need
  {
    var pos := IndexOf(h, p, from);
    need > 0 && pos > 0 && (pos == k || Listed(h, p, pos + 1, need - 1, k))
  }

  lemma {:induction false} ListedIsMatch(h: string, p: string, from: int, need: nat, k: int)
    requires Listed(h, p, from, need, k)
    ensures k in FindMatches(h, p, from, need)
    decreases need
  {
    var pos := IndexOf(h, p, from);
    var rest := FindMatches(h, p, pos + 1, need - 1);
    assert FindMatches(h, p, from, need) == [pos] + rest;
    if pos != k {
      ListedIsMatch(h, p, pos + 1, need - 1, k);
    }
  }

  lemma {:induction false} LastMatchListed(h: string, p: string, from: int, need: nat)
    requires |FindMatches(h, p, from, need)| > 0
    ensures var ps := FindMatches(h, p, from, need); Listed(h, p, from, need, ps[|ps| - 1])
    decreases need
  {
    var pos := IndexOf(h, p, from);
    var rest := FindMatches(h, p, pos + 1, need - 1);
    var ps := FindMatches(h, p, from, need);
    assert ps == [pos] + rest;
    if |rest| > 0 {
      LastMatchListed(h, p, pos + 1, need - 1);
      assert ps[|ps| - 1] == rest[|rest| - 1];
    }
  }

  /** Every occurrence from the start up to a listed position is listed. */
  lemma {:induction false} ListedUpTo(h: string, p: string, from: int, need: nat, k: int)
    requires exists last :: Listed(h, p, from, need, last) && k <= last
    requires MaxInt(from, 0) <= k < |h| && OccursAt(h, p, k)
    ensures Listed(h, p, from, need, k)
    decreases need
  {
    var last :| Listed(h, p, from, need, last) && k <= last;
    var pos := IndexOf(h, p, from);
    IndexOfIsFirst(h, p, from, k);
    if k != pos {
      assert Listed(h, p, pos + 1, need - 1, last);
      ListedUpTo(h, p, pos + 1, need - 1, k);
    }
  }

  /** indexOf finds an occurrence no later than any occurrence past the start. */
  lemma IndexOfIsFirst(h: string, p: string, from: int, k: int)
    requires MaxInt(from, 0) <= k < |h| && OccursAt(h, p, k)
    ensures 0 <= IndexOf(h, p, from) <= k
  {
  }

  /** One recorded match: where the pattern prefix of length `len` starts. */
  datatype Match = Match(pos: int, len: int)

  /** The outer loop of getDangers: search for the first `matchLen` symbols
      of the pattern, then one fewer, until `need` more matches are found.
      None is the StringIndexOutOfBoundsException of substring(0, -1),
      reached only if even the empty prefix finds nothing. */
  function MatchLoop(h: string, pattern: string, from: int, matchLen: int, need: nat): (r: Option<seq<Match>>)
    requires matchLen <= |pattern|
    ensures r.Some? ==> |r.value| == need
    ensures r.Some? ==> forall j :: 0 <= j < |r.value| ==>
              0 < r.value[j].pos && 0 <= r.value[j].len <= matchLen
              && OccursAt(h, pattern[..r.value[j].len], r.value[j].pos)
    ensures r.Some? ==> forall i, j :: 0 <= i < j < |r.value| ==> r.value[j].len <= r.value[i].len
    decreases need, matchLen + 1
  {
    if need == 0 then Some([])
    else if matchLen < 0 then None
    else
      var ps := FindMatches(h, pattern[..matchLen], from, need);
      var found := seq(|ps|, i requires 0 <= i < |ps| => Match(ps[i], matchLen));
      match MatchLoop(h, pattern, from, matchLen - 1, need - |ps|)
      case None => None
      case Some(rest) => Some(found + rest)
  }

  /** With a positive search start the empty prefix matches at every
      step, so the inner loop always fills up. */
  lemma {:induction false} EmptyPatternAlwaysMatches(h: string, from: int, need: nat)
    requires from > 0 && |h| > 0
    ensures |FindMatches(h, [], from, need)| == need
    decreases need
  {
    if need > 0 {
      var pos := IndexOf(h, [], from);
      assert OccursAt(h, [], MinInt(from, |h|));
      assert pos > 0;
      EmptyPatternAlwaysMatches(h, pos + 1, need - 1);
    }
  }

  /** So the matching loop never reaches substring(0, -1) once the search
      starts at a positive index. */
  lemma {:induction false} MatchLoopSucceeds(h: string, pattern: string, from: int, matchLen: int, need: nat)
    requires from > 0 && |h| > 0 && 0 <= matchLen <= |pattern|
    ensures MatchLoop(h, pattern, from, matchLen, need).Some?
    decreases need, matchLen + 1
  {
    if need > 0 {
      var ps := FindMatches(h, pattern[..matchLen], from, need);
      if matchLen == 0 {
        assert pattern[..0] == [];
        EmptyPatternAlwaysMatches(h, from, need);
        assert need - |ps| == 0;
      } else {
        MatchLoopSucceeds(h, pattern, from, matchLen - 1, need - |ps|);
      }
    }
  }

  /** (short) of a char: code points above 32767 wrap to negative. */
  function ShortOf(c: char): int {
    if (c as int) >= 32768 then (c as int) - 65536 else c as int
  }

  /** The do-while of getDangers: the symbols before position `i`, newest
      first, each divided by the distance, until the bullet would have
      covered the remaining distance or the history runs out. */
  function OffsetFrom(h: string, i: int, remaining: real, speed: real, distance: real): real
    requires 1 <= i <= |h| && distance != 0.0
    decreases i
  {
    var v := (ShortOf(h[i - 1]) as real) / distance;
    if remaining - speed > 0.0 && i - 1 > 0 then v + OffsetFrom(h, i - 1, remaining - speed, speed, distance)
    else v
  }

  /** The vote of the k-th match (k from 1): Java's int division matchLen / matches. */
  function Vote(m: Match, k: nat): (v: real)
    requires k >= 1 && m.len >= 0
    ensures 0.0 <= v <= m.len as real
  {
    (m.len / k) as real
  }

  /** The sum of the votes of the first n matches. */
  function TotalVotes(ms: seq<Match>, n: nat): real
    requires n <= |ms| && forall j :: 0 <= j < |ms| ==> ms[j].len >= 0
  {
    if n == 0 then 0.0 else TotalVotes(ms, n - 1) + Vote(ms[n - 1], n)
  }

  /** The danger array after the first n matches have voted. */
  function Scatter(b: Bins, w: Wave, q: APMQuery, h: string, ms: seq<Match>, n: nat): (d: seq<real>)
    requires Valid(b) && WellFormed(w) && q.distance != 0.0 && n <= |ms|
    requires forall j :: 0 <= j < |ms| ==> 1 <= ms[j].pos <= |h| && ms[j].len >= 0
    ensures |d| == b.nBins
    ensures Sum(d) == TotalVotes(ms, n)
    ensures forall i :: 0 <= i < |d| ==> d[i] >= 0.0
  {
    if n == 0 then
      SumOfZeroArray(b.nBins);
      ZeroArray(b.nBins)
    else
      var prev := Scatter(b, w, q, h, ms, n - 1);
      var m := ms[n - 1];
      var gf := GetGF(w, q.bearingOffset + OffsetFrom(h, m.pos, q.distance, q.speed, q.distance));
      GetBinInRange(b, gf);
      SumUpdate(prev, GetBin(b, gf), Vote(m, n));
      prev[GetBin(b, gf) := prev[GetBin(b, gf)] + Vote(m, n)]
  }

  /** APMFlattener.getDangers. With at most MIN_TICKS_AHEAD symbols of
      history every bin is 0. Otherwise min(10, length / 10) matches are
      collected, longest pattern prefixes first, searching from
      MIN_TICKS_AHEAD + (gameTime - fireTime), and the k-th match adds
      matchLen / k to the bin of the offset it predicts; the total danger
      is the total of the votes. None is the exception of a search that
      starts at or before index 0. */
  function GetDangers(a: APM, b: Bins, w: Wave, q: APMQuery): (r: Option<seq<real>>)
    requires Valid(b) && WellFormed(w) && q.distance != 0.0
    ensures r.Some? ==> |r.value| == b.nBins && forall i :: 0 <= i < b.nBins ==> r.value[i] >= 0.0
    ensures |a.history| <= MIN_TICKS_AHEAD ==> r == Some(ZeroArray(b.nBins))
    ensures |a.history| > MIN_TICKS_AHEAD ==>
              && (r.Some? <==> Matches(a, w, q).Some?)
              && (r.Some? ==> Sum(r.value) == TotalVotes(Matches(a, w, q).value, |Matches(a, w, q).value|))
  {
    if |a.history| <= MIN_TICKS_AHEAD then Some(ZeroArray(b.nBins))
    else
      match Matches(a, w, q)
      case None => None
      case Some(ms) => Some(Scatter(b, w, q, a.history, ms, |ms|))
  }

  /** The matches getDangers collects: min(10, length / 10) of them, longest
      pattern prefixes first, searching from MIN_TICKS_AHEAD + (gameTime -
      fireTime). */
  function Matches(a: APM, w: Wave, q: APMQuery): (r: Option<seq<Match>>)
    ensures r.Some? ==> forall j :: 0 <= j < |r.value| ==> 1 <= r.value[j].pos <= |a.history| && r.value[j].len >= 0
  {
    var r := MatchLoop(a.history, q.pattern, MIN_TICKS_AHEAD + (a.gameTime - w.fireTime),
                       MinInt(MAX_MATCH_LEN, |q.pattern|), MinInt(10, |a.history| / 10));
    assert r.Some? ==> forall j :: 0 <= j < |r.value| ==> r.value[j].pos + r.value[j].len <= |a.history|;
    r
  }

  /** A wave fired no more than MIN_TICKS_AHEAD ticks in the future (so
      every wave actually fired) always gets a danger array, built from
      exactly min(10, length / 10) matches. */
  lemma GetDangersDefined(a: APM, b: Bins, w: Wave, q: APMQuery)
    requires Valid(b) && WellFormed(w) && q.distance != 0.0
    requires a.gameTime - w.fireTime > -(MIN_TICKS_AHEAD as int)
    ensures GetDangers(a, b, w, q).Some?
    ensures |a.history| > MIN_TICKS_AHEAD ==>
              |MatchLoop(a.history, q.pattern, MIN_TICKS_AHEAD + (a.gameTime - w.fireTime),
                         MinInt(MAX_MATCH_LEN, |q.pattern|), MinInt(10, |a.history| / 10)).value|
              == MinInt(10, |a.history| / 10)
  {
    if |a.history| > MIN_TICKS_AHEAD {
      var from, len, need := MIN_TICKS_AHEAD + (a.gameTime - w.fireTime), MinInt(MAX_MATCH_LEN, |q.pattern|),
                             MinInt(10, |a.history| / 10);
      MatchLoopSucceeds(a.history, q.pattern, from, len, need);
      assert Matches(a, w, q) == MatchLoop(a.history, q.pattern, from, len, need);
    }
  }
}
