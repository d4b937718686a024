/** FeatureRegexFilter: drops every token whose type (the morpheme's feature
    string) fully matches one of the configured stop patterns, and adds the
    position increments of the dropped tokens to the next token it lets
    through. The regular-expression engine is a given full-match relation. */
module FeatureFilter {
  import opened Common
  import opened SenStage

  /** A compiled stop pattern (Pattern.compile). */
  datatype Pattern = Pattern(regex: string)

  /** A matcher: a pattern applied to the string it was last reset to. */
  datatype Matcher = Matcher(pattern: Pattern, subject: string)

  /** The patterns buildPatterns() compiles, one per stop pattern, in order. */
  function Compiled(stopPatterns: seq<string>): (ps: seq<Pattern>)
    ensures |ps| == |stopPatterns|
    ensures forall i :: 0 <= i < |ps| ==> ps[i].regex == stopPatterns[i]
  {
    seq(|stopPatterns|, i requires 0 <= i < |stopPatterns| => Pattern(stopPatterns[i]))
  }

  // ---------------------------------------------------------------------------
  // Matching a feature against the stop patterns

  /** Some pattern matches the whole feature string (Matcher.matches(), not
      find()). */
  predicate Matches(fullMatch: (string, string) -> bool, patterns: seq<Pattern>, feature: string)
  {
    exists i :: 0 <= i < |patterns| && fullMatch(patterns[i].regex, feature)
  }

  /** Index of the first pattern from `from` on that matches the whole
      feature, or the number of patterns when none does. */
  function FirstMatch(fullMatch: (string, string) -> bool, patterns: seq<Pattern>, feature: string, from: nat): (k: nat)
    requires from <= |patterns|
    ensures from <= k <= |patterns|
    ensures forall j :: from <= j < k ==> !fullMatch(patterns[j].regex, feature)
    ensures k < |patterns| ==> fullMatch(patterns[k].regex, feature)
    decreases |patterns| - from
  {
    if from == |patterns| then |patterns|
    else if fullMatch(patterns[from].regex, feature) then from
    else FirstMatch(fullMatch, patterns, feature, from + 1)
  }

  /** How many matchers match() touches: up to and including the first
      matching pattern, or all of them when none matches. */
  function Reached(fullMatch: (string, string) -> bool, patterns: seq<Pattern>, feature: string): nat
  {
    var k := FirstMatch(fullMatch, patterns, feature, 0);
    if k < |patterns| then k + 1 else |patterns|
  }

  /** A feature is dropped exactly when the first-match search stops inside
      the pattern list; with no patterns nothing is ever dropped. */
  lemma MatchesIffFirstMatch(fullMatch: (string, string) -> bool, patterns: seq<Pattern>, feature: string)
    ensures Matches(fullMatch, patterns, feature) <==> FirstMatch(fullMatch, patterns, feature, 0) < |patterns|
    ensures patterns == [] ==> !Matches(fullMatch, patterns, feature)
  {
    var k := FirstMatch(fullMatch, patterns, feature, 0);
    if Matches(fullMatch, patterns, feature) {
      var i :| 0 <= i < |patterns| && fullMatch(patterns[i].regex, feature);
      assert k <= i;
    }
  }

  /** The filter's stop test as a predicate on token types. */
  function StopTest(fullMatch: (string, string) -> bool, patterns: seq<Pattern>): string -> bool
  {
    feature => Matches(fullMatch, patterns, feature)
  }

  // ---------------------------------------------------------------------------
  // One call of incrementToken()

  /** Sum of the position increments of some tokens. */
  function SumInc(ts: seq<Token>): int
  {
    if ts == [] then 0 else ts[0].posInc + SumInc(ts[1..])
  }

  /** Result of one incrementToken() call: upstream ran out, or the token at
      `index` of the upstream tokens survived and is emitted as `token`. */
  datatype Pulled = Exhausted | Survivor(token: Token, index: nat)

  /** The loop of incrementToken() over the upstream tokens `ts`, having
      already dropped tokens worth `skipped` positions in this call: the
      first token whose type matches no pattern is emitted with its own
      increment plus everything skipped; the rest are dropped. */
  function Pull(drop: string -> bool, ts: seq<Token>, skipped: int): (r: Pulled)
    ensures r.Exhausted? <==> forall i :: 0 <= i < |ts| ==> drop(ts[i].tokenType)
    ensures r.Survivor? ==>
      && r.index < |ts|
      && !drop(ts[r.index].tokenType)
      && (forall i :: 0 <= i < r.index ==> drop(ts[i].tokenType))
      && r.token == ts[r.index].(posInc := ts[r.index].posInc + skipped + SumInc(ts[..r.index]))
    decreases |ts|
  {
    if ts == [] then Exhausted
    else if !drop(ts[0].tokenType) then
      assert ts[..0] == [];
      Survivor(ts[0].(posInc := ts[0].posInc + skipped), 0)
    else
      match Pull(drop, ts[1..], skipped + ts[0].posInc)
      case Exhausted =>
        assert forall i :: 0 < i < |ts| ==> ts[i] == ts[1..][i - 1];
        Exhausted
      case Survivor(t, k) =>
        assert ts[..k + 1][1..] == ts[1..][..k];
        assert forall i :: 0 < i < k + 1 ==> ts[i] == ts[1..][i - 1];
        Survivor(t, k + 1)
  }

  /** Last element of a token list, or `default` for an empty one. */
  function LastOr(ts: seq<Token>, default: Token): Token
  {
    if ts == [] then default else ts[|ts| - 1]
  }

  // ---------------------------------------------------------------------------
  // The whole filtered stream

  /** The tokens the filter emits over successive calls, the current call
      having already skipped `skipped` positions: an unmatched token is
      emitted carrying the skip, and the next call starts again from zero
      (no skip is carried across calls); a matched token adds its increment
      to the skip. */
  function Emitted(drop: string -> bool, ts: seq<Token>, skipped: int): seq<Token>
    decreases |ts|
  {
    if ts == [] then []
    else if drop(ts[0].tokenType) then Emitted(drop, ts[1..], skipped + ts[0].posInc)
    else [ts[0].(posInc := ts[0].posInc + skipped)] + Emitted(drop, ts[1..], 0)
  }

  /** The emitted stream is what repeated incrementToken() calls produce:
      each call's survivor, then the stream of the tokens after it. */
  lemma {:induction false} EmittedIsRepeatedPull(drop: string -> bool, ts: seq<Token>, skipped: int)
    ensures Emitted(drop, ts, skipped)
         == match Pull(drop, ts, skipped)
            case Exhausted => []
            case Survivor(t, k) => [t] + Emitted(drop, ts[k + 1..], 0)
    decreases |ts|
  {
    if ts == [] {
    } else if !drop(ts[0].tokenType) {
      assert Pull(drop, ts, skipped) == Survivor(ts[0].(posInc := ts[0].posInc + skipped), 0);
    } else {
      var s := skipped + ts[0].posInc;
      EmittedIsRepeatedPull(drop, ts[1..], s);
      match Pull(drop, ts[1..], s)
      case Exhausted =>
        assert Pull(drop, ts, skipped) == Exhausted;
      case Survivor(t, k) =>
        assert Pull(drop, ts, skipped) == Survivor(t, k + 1);
        assert ts[k + 2..] == ts[1..][k + 1..];
    }
  }

  /** The filtered stream of a whole upstream stream. */
  function Filtered(drop: string -> bool, ts: seq<Token>): seq<Token>
  {
    Emitted(drop, ts, 0)
  }

  /** Absolute positions of a stream's tokens, counted from `base`. */
  function Positions(ts: seq<Token>, base: int): seq<int>
  {
    if ts == [] then [] else [base + ts[0].posInc] + Positions(ts[1..], base + ts[0].posInc)
  }

  /** Absolute positions, in the unfiltered stream, of the tokens that no
      pattern matches. */
  function KeptPositions(drop: string -> bool, ts: seq<Token>, base: int): seq<int>
  {
    if ts == [] then []
    else
      var p := base + ts[0].posInc;
      (if drop(ts[0].tokenType) then [] else [p])
      + KeptPositions(drop, ts[1..], p)
  }

  /** The tokens that no pattern matches, unchanged. */
  function Kept(drop: string -> bool, ts: seq<Token>): seq<Token>
  {
    if ts == [] then []
    else (if drop(ts[0].tokenType) then [] else [ts[0]]) + Kept(drop, ts[1..])
  }

  /** A stream with every position increment blanked out. */
  function WithoutIncrements(ts: seq<Token>): seq<Token>
  {
    if ts == [] then [] else [ts[0].(posInc := 0)] + WithoutIncrements(ts[1..])
  }

  /** A dropped leading token only moves the base position of the rest. */
  lemma KeptPositionsSkipsDropped(drop: string -> bool, ts: seq<Token>, base: int)
    requires ts != [] && drop(ts[0].tokenType)
    ensures KeptPositions(drop, ts, base) == KeptPositions(drop, ts[1..], base + ts[0].posInc)
  {
    var p := base + ts[0].posInc;
    assert [] + KeptPositions(drop, ts[1..], p) == KeptPositions(drop, ts[1..], p);
  }

  /** Positions survive filtering: every emitted token sits at the absolute
      position it had in the unfiltered stream, so dropped tokens never make
      their neighbours look adjacent. */
  lemma {:induction false} FilterKeepsPositions(drop: string -> bool, ts: seq<Token>, skipped: int, base: int)
    ensures Positions(Emitted(drop, ts, skipped), base) == KeptPositions(drop, ts, base + skipped)
    decreases |ts|
  {
    if ts == [] {
    } else if drop(ts[0].tokenType) {
      FilterKeepsPositions(drop, ts[1..], skipped + ts[0].posInc, base);
      KeptPositionsSkipsDropped(drop, ts, base + skipped);
    } else {
      var t := ts[0].(posInc := ts[0].posInc + skipped);
      var rest := Emitted(drop, ts[1..], 0);
      var p := base + skipped + ts[0].posInc;
      FilterKeepsPositions(drop, ts[1..], 0, p);
      assert ([t] + rest)[1..] == rest;
    }
  }

  /** The filter emits exactly the unmatched tokens, in order, changing
      nothing about them but their position increment. */
  lemma {:induction false} FilterKeepsUnmatched(drop: string -> bool, ts: seq<Token>, skipped: int)
    ensures WithoutIncrements(Emitted(drop, ts, skipped)) == WithoutIncrements(Kept(drop, ts))
    decreases |ts|
  {
    if ts == [] {
    } else if drop(ts[0].tokenType) {
      FilterKeepsUnmatched(drop, ts[1..], skipped + ts[0].posInc);
      assert Kept(drop, ts) == [] + Kept(drop, ts[1..]);
      assert [] + Kept(drop, ts[1..]) == Kept(drop, ts[1..]);
    } else {
      var t := ts[0].(posInc := ts[0].posInc + skipped);
      var rest := Emitted(drop, ts[1..], 0);
      FilterKeepsUnmatched(drop, ts[1..], 0);
      assert ([t] + rest)[1..] == rest;
      var kept := Kept(drop, ts[1..]);
      assert Kept(drop, ts) == [ts[0]] + kept;
      assert ([ts[0]] + kept)[1..] == kept;
    }
  }

  // ---------------------------------------------------------------------------
  // The filter object

  class FeatureRegexFilter {
    /** The upstream stage; its attributes are shared with this filter. */
    const input: SenTokenizer
    const fullMatch: (string, string) -> bool
    var patterns: array<Pattern>
    var matchers: array<Option<Matcher>>

    /** One matcher slot per pattern; a matcher, once created, belongs to
        the pattern in its slot. */
    ghost predicate Valid()
      reads this, patterns, matchers
    {
      && matchers.Length == patterns.Length
      && forall i :: 0 <= i < matchers.Length && matchers[i].Some? ==> matchers[i].value.pattern == patterns[i]
    }

    /** new FeatureRegexFilter(input, stopPatterns). */
    constructor (input: SenTokenizer, stopPatterns: seq<string>, fullMatch: (string, string) -> bool)
      ensures Valid() && this.input == input && this.fullMatch == fullMatch
      ensures fresh(patterns) && fresh(matchers)
      ensures patterns[..] == Compiled(stopPatterns)
      ensures forall i :: 0 <= i < matchers.Length ==> matchers[i].None?
    {
      this.input := input;
      this.fullMatch := fullMatch;
      var p, m := BuildPatterns(stopPatterns);
      patterns := p;
      matchers := m;
    }

    /** buildPatterns(): compile each stop pattern, in order, and make an
        equally long matcher array with every slot empty. */
    static method BuildPatterns(stopPatterns: seq<string>) returns (patterns: array<Pattern>, matchers: array<Option<Matcher>>)
      ensures fresh(patterns) && fresh(matchers)
      ensures patterns[..] == Compiled(stopPatterns)
      ensures matchers.Length == |stopPatterns|
      ensures forall i :: 0 <= i < matchers.Length ==> matchers[i].None?
    {
      patterns := new Pattern[|stopPatterns|];
      matchers := new Option<Matcher>[|stopPatterns|];
      for i := 0 to |stopPatterns|
        invariant forall j :: 0 <= j < i ==> patterns[j] == Pattern(stopPatterns[j]) && matchers[j].None?
      {
        patterns[i] := Pattern(stopPatterns[i]);
        matchers[i] := None;
      }
    }

    /** match(feature): try the patterns in order, creating each matcher on
        first use and resetting it to the feature otherwise, and stop at the
        first full match. */
    method Match(feature: string) returns (b: bool)
      requires Valid()
      modifies matchers
      ensures Valid()
      ensures b == Matches(fullMatch, patterns[..], feature)
      ensures var reached := Reached(fullMatch, patterns[..], feature);
        && (forall i :: 0 <= i < reached ==> matchers[i] == Some(Matcher(patterns[i], feature)))
        && (forall i :: reached <= i < matchers.Length ==> matchers[i] == old(matchers[i]))
    {
      ghost var k := FirstMatch(fullMatch, patterns[..], feature, 0);
      MatchesIffFirstMatch(fullMatch, patterns[..], feature);
      var i := 0;
      while i < matchers.Length
        invariant 0 <= i <= matchers.Length && i <= k
        invariant Valid()
        invariant forall j :: 0 <= j < i ==> matchers[j] == Some(Matcher(patterns[j], feature))
        invariant forall j :: i <= j < matchers.Length ==> matchers[j] == old(matchers[j])
      {
        var m := matchers[i];
        if m.None? {
          m := Some(Matcher(patterns[i], feature));
        } else {
          m := Some(m.value.(subject := feature));
        }
        matchers[i] := m;
        if fullMatch(m.value.pattern.regex, m.value.subject) {
          assert patterns[..][i] == patterns[i];
          return true;
        }
        i := i + 1;
      }
      return false;
    }

    /** incrementToken(): pull upstream tokens, dropping those whose type
        matches a pattern and adding up their increments, until one survives
        (it is emitted with the sum added to its increment) or upstream runs
        out (no token, and the sum is discarded). */
    method IncrementToken() returns (more: bool)
      requires Valid()
      modifies input`pending, input`attrs, matchers
      ensures Valid()
      ensures var p := Pull(StopTest(fullMatch, patterns[..]), old(input.pending), 0);
        && (more <==> p.Survivor?)
        && (p.Survivor? ==> input.attrs == p.token && input.pending == old(input.pending)[p.index + 1..])
        && (p.Exhausted? ==> input.pending == [] && input.attrs == LastOr(old(input.pending), old(input.attrs)))
    {
      ghost var ts := input.pending;
      ghost var n := 0;
      var skippedPositions := 0;
      while true
        invariant Valid()
        invariant 0 <= n <= |ts| && input.pending == ts[n..]
        invariant forall j :: 0 <= j < n ==> Matches(fullMatch, patterns[..], ts[j].tokenType)
        invariant skippedPositions == SumInc(ts[..n])
        invariant input.attrs == LastOr(ts[..n], old(input.attrs))
        decreases |input.pending|
      {
        var got := input.IncrementToken();
        if !got {
          assert ts[..n] == ts;
          return false;
        }
        n := n + 1;
        var m := Match(input.attrs.tokenType);
        if !m {
          input.attrs := input.attrs.(posInc := input.attrs.posInc + skippedPositions);
          ghost var p := Pull(StopTest(fullMatch, patterns[..]), ts, 0);
          assert p.Survivor? && p.index == n - 1 by {
            assert !Matches(fullMatch, patterns[..], ts[n - 1].tokenType);
          }
          return true;
        }
        assert ts[..n] == ts[..n - 1] + [ts[n - 1]];
        SumIncSnoc(ts[..n - 1], ts[n - 1]);
        skippedPositions := skippedPositions + input.attrs.posInc;
      }
    }

    /** reset(): clear the shared attributes; the patterns are left alone. */
    method Reset()
      modifies input`attrs, input`history
      ensures input.attrs == Cleared
      ensures input.history == old(input.history) + [AttributesCleared]
      ensures patterns == old(patterns) && patterns[..] == old(patterns[..])
    {
      input.attrs := Cleared;
      input.history := input.history + [AttributesCleared];
    }
  }

  /** Adding one more dropped token adds its increment. */
  lemma {:induction false} SumIncSnoc(ts: seq<Token>, t: Token)
    ensures SumInc(ts + [t]) == SumInc(ts) + t.posInc
    decreases |ts|
  {
    if ts == [] {
      assert [t][1..] == [];
    } else {
      assert (ts + [t])[1..] == ts[1..] + [t];
      SumIncSnoc(ts[1..], t);
    }
  }
}
