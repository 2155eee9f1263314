/** The builder of the character ranges in the API's name and description patterns. */
module RegexRange {

  /** A piece of the regular expression: an escaped character, or a dash and an escaped character. */
  datatype Token = Lit(c: nat) | Dash(c: nat)

  /** A range of characters, both ends included. */
  datatype Range = Range(lo: nat, hi: nat)

  /** What unicodedata says of a character: other or non-horizontal space, horizontal space, the rest. */
  datatype Category = Unprintable | Space | Visible

  /** valid_char. */
  predicate ValidChar(category: Category, excluded: bool, ws: bool, invert: bool)
  {
    var result := if excluded then false else if ws then category != Unprintable else category == Visible;
    if invert then !result else result
  }

  /** The ranges a list of tokens denotes as part of a character class. */
  function Ranges(regex: seq<Token>): seq<Range>
  {
    if regex == [] then []
    else
      var n := |regex| - 1;
      match regex[n]
      case Lit(c) => Ranges(regex[..n]) + [Range(c, c)]
      case Dash(c) =>
        if n > 0 && regex[n - 1].Lit? then Ranges(regex[..n - 1]) + [Range(regex[n - 1].c, c)]
        else Ranges(regex[..n])                                   // a dash that is no range: not emitted
  }

  predicate Covers(ranges: seq<Range>, c: nat) { exists k | 0 <= k < |ranges| :: ranges[k].lo <= c <= ranges[k].hi }

  /** The ranges denote exactly the valid ones of the first n characters; they ascend, are disjoint and
      never adjacent. */
  ghost predicate RunsOf(ranges: seq<Range>, valid: seq<bool>, n: nat)
    requires n <= |valid|
  {
    && (forall k | 0 <= k < |ranges| :: ranges[k].lo <= ranges[k].hi < n)
    && (forall k, l | 0 <= k < l < |ranges| :: ranges[k].hi + 1 < ranges[l].lo)
    && (forall c | 0 <= c < n :: valid[c] <==> Covers(ranges, c))
  }

  lemma RangesOfLit(regex: seq<Token>, c: nat)
    ensures Ranges(regex + [Lit(c)]) == Ranges(regex) + [Range(c, c)]
  {
    assert (regex + [Lit(c)])[..|regex|] == regex;
  }

  lemma RangesOfDash(regex: seq<Token>, c: nat, d: nat)
    ensures Ranges(regex + [Lit(c)] + [Dash(d)]) == Ranges(regex) + [Range(c, d)]
  {
    var r := regex + [Lit(c)] + [Dash(d)];
    assert r[..|regex|] == regex && r[|regex|] == Lit(c) && r[|regex| + 1] == Dash(d);
  }

  /** A run from lo to hi that ends the first n characters but for invalid ones joins the ranges. */
  lemma RunJoins(ranges: seq<Range>, valid: seq<bool>, lo: nat, hi: nat, n: nat)
    requires lo <= hi < n <= |valid| && RunsOf(ranges, valid, lo)
    requires forall k | 0 <= k < |ranges| :: ranges[k].hi + 1 < lo
    requires forall c | lo <= c <= hi :: valid[c]
    requires forall c | hi < c < n :: !valid[c]
    ensures RunsOf(ranges + [Range(lo, hi)], valid, n)
  {
    var more := ranges + [Range(lo, hi)];
    forall c | 0 <= c < n ensures valid[c] <==> Covers(more, c) {
      if Covers(ranges, c) {
        var k :| 0 <= k < |ranges| && ranges[k].lo <= c <= ranges[k].hi;
        assert more[k] == ranges[k];
      }
      assert lo <= c <= hi ==> more[|ranges|].lo <= c <= more[|ranges|].hi;
    }
  }

  lemma InvalidJoins(ranges: seq<Range>, valid: seq<bool>, n: nat)
    requires n < |valid| && !valid[n] && RunsOf(ranges, valid, n)
    ensures RunsOf(ranges, valid, n + 1)
  {
  }

  /** How a range is written over an alphabet of n characters: a single character by itself, unless it is
      the very last one, which is written as a range from itself to itself. */
  function Written(range: Range, n: nat): seq<Token>
  {
    if range.lo == range.hi && range.hi + 1 != n then [Lit(range.lo)] else [Lit(range.lo), Dash(range.hi)]
  }

  function WrittenAll(ranges: seq<Range>, n: nat): seq<Token>
  {
    if ranges == [] then [] else WrittenAll(ranges[..|ranges| - 1], n) + Written(ranges[|ranges| - 1], n)
  }

  lemma WrittenGrows(ranges: seq<Range>, range: Range, n: nat)
    ensures WrittenAll(ranges + [range], n) == WrittenAll(ranges, n) + Written(range, n)
  {
    assert (ranges + [range])[..|ranges|] == ranges;
  }

  /** _build_regex_range, for an alphabet of |valid| characters: the emitted ranges are exactly the
      maximal runs of valid characters. */
  method BuildRegexRange(valid: seq<bool>) returns (regex: seq<Token>)
    ensures RunsOf(Ranges(regex), valid, |valid|)
    ensures regex == WrittenAll(Ranges(regex), |valid|)
  {
    hide Ranges, RunsOf, WrittenAll;
    NothingWritten(valid);
    regex := [];
    var inRange := false;
    var last, lastAdded := 0, 0;                 // None before the first character; not read then
    ghost var closed: seq<Token> := [];
    for c := 0 to |valid|
      invariant c > 0 ==> last == c - 1
      invariant inRange ==> 0 < c && lastAdded < c && regex == closed + [Lit(lastAdded)]
      invariant inRange ==> forall k | lastAdded <= k < c :: valid[k]
      invariant !inRange ==> regex == closed && (c > 0 ==> !valid[c - 1])
      invariant RunsOf(Ranges(closed), valid, if inRange then lastAdded else c)
      invariant inRange && lastAdded > 0 ==> !valid[lastAdded - 1]
      invariant closed == WrittenAll(Ranges(closed), |valid|)
    {
      if valid[c] {
        if !inRange {
          regex := regex + [Lit(c)];
          lastAdded := c;
        }
        inRange := true;
      } else {
        if inRange {
          RangesApart(Ranges(closed), valid, lastAdded);
          RunJoins(Ranges(closed), valid, lastAdded, last, c + 1);
          RangesOfDash(closed, lastAdded, last);
          RangesOfLit(closed, lastAdded);
          WrittenGrows(Ranges(closed), Range(lastAdded, last), |valid|);
        } else {
          InvalidJoins(Ranges(closed), valid, c);
        }
        if inRange && last != lastAdded {
          regex := regex + [Dash(last)];
        }
        inRange := false;
        closed := regex;
      }
      last := c;
    }
    if inRange {
      RangesApart(Ranges(closed), valid, lastAdded);
      RunJoins(Ranges(closed), valid, lastAdded, last, |valid|);
      RangesOfDash(closed, lastAdded, last);
      WrittenGrows(Ranges(closed), Range(lastAdded, last), |valid|);
      regex := regex + [Dash(last)];
    }
  }

  lemma NothingWritten(valid: seq<bool>)
    ensures Ranges([]) == [] && RunsOf([], valid, 0) && WrittenAll([], |valid|) == []
  {
  }

  /** Ranges that end before an invalid character are not adjacent to what comes after it. */
  lemma RangesApart(ranges: seq<Range>, valid: seq<bool>, n: nat)
    requires n <= |valid| && RunsOf(ranges, valid, n) && (n > 0 ==> !valid[n - 1])
    ensures forall k | 0 <= k < |ranges| :: ranges[k].hi + 1 < n
  {
    forall k | 0 <= k < |ranges| ensures ranges[k].hi + 1 < n {
      if ranges[k].hi + 1 == n { assert Covers(ranges, n - 1); }
    }
  }

  /** The valid flags of a direct and an inverted call over the same alphabet. */
  function Flags(categories: seq<Category>, excluded: set<nat>, ws: bool, invert: bool): (valid: seq<bool>)
    ensures |valid| == |categories|
  {
    seq(|categories|, c requires 0 <= c < |categories| => ValidChar(categories[c], c in excluded, ws, invert))
  }

  /** The direct and the inverted output partition the alphabet: every character is in exactly one. */
  method BuildBoth(categories: seq<Category>, excluded: set<nat>, ws: bool)
    returns (direct: seq<Token>, inverted: seq<Token>)
    ensures forall c | 0 <= c < |categories| :: Covers(Ranges(direct), c) <==> !Covers(Ranges(inverted), c)
    ensures forall c | 0 <= c < |categories| ::
              Covers(Ranges(direct), c) <==> c !in excluded && (categories[c] == Visible || (ws && categories[c] == Space))
  {
    direct := BuildRegexRange(Flags(categories, excluded, ws, false));
    inverted := BuildRegexRange(Flags(categories, excluded, ws, true));
  }

  lemma InvalidLeaves(ranges: seq<Range>, valid: seq<bool>, n: nat)
    requires 0 < n <= |valid| && !valid[n - 1] && RunsOf(ranges, valid, n)
    ensures RunsOf(ranges, valid, n - 1)
  {
    RangesApart(ranges, valid, n);
  }

  /** If the last character is valid, the last range ends there, and the others stay without it. */
  lemma LastRun(ranges: seq<Range>, valid: seq<bool>, n: nat) returns (lo: nat)
    requires 0 < n <= |valid| && valid[n - 1] && RunsOf(ranges, valid, n)
    ensures ranges != [] && lo < n && ranges == ranges[..|ranges| - 1] + [Range(lo, n - 1)]
    ensures RunsOf(ranges[..|ranges| - 1], valid, lo)
    ensures (lo > 0 ==> !valid[lo - 1]) && forall c | lo <= c < n :: valid[c]
  {
    assert Covers(ranges, n - 1);
    var k :| 0 <= k < |ranges| && ranges[k].lo <= n - 1 <= ranges[k].hi;
    var final := ranges[|ranges| - 1];
    assert k == |ranges| - 1 && final.hi == n - 1;
    lo := final.lo;
    forall c | lo <= c < n ensures valid[c] { assert Covers(ranges, c); }
    forall c | 0 <= c < lo ensures valid[c] <==> Covers(ranges[..k], c) { PrefixCovers(ranges, c); }
    assert lo > 0 && valid[lo - 1] ==> Covers(ranges[..k], lo - 1);
  }

  lemma PrefixCovers(ranges: seq<Range>, c: nat)
    requires ranges != [] && c < ranges[|ranges| - 1].lo
    ensures Covers(ranges[..|ranges| - 1], c) <==> Covers(ranges, c)
  {
    var rest := ranges[..|ranges| - 1];
    if k :| 0 <= k < |ranges| && ranges[k].lo <= c <= ranges[k].hi {
      assert rest[k].lo <= c <= rest[k].hi;
    }
    if k :| 0 <= k < |rest| && rest[k].lo <= c <= rest[k].hi {
      assert ranges[k].lo <= c <= ranges[k].hi;
    }
  }

  lemma NoRuns(ranges: seq<Range>, valid: seq<bool>)
    requires RunsOf(ranges, valid, 0)
    ensures ranges == []
  {
    assert ranges != [] ==> ranges[0].hi < 0;
  }

  /** The properties of the output determine it: two lists of ranges that have them are the same. */
  lemma {:induction false} RunsAreUnique(ranges: seq<Range>, others: seq<Range>, valid: seq<bool>, n: nat)
    requires n <= |valid| && RunsOf(ranges, valid, n) && RunsOf(others, valid, n)
    ensures ranges == others
    decreases n
  {
    if n > 0 {
      if !valid[n - 1] {
        InvalidLeaves(ranges, valid, n);
        InvalidLeaves(others, valid, n);
        RunsAreUnique(ranges, others, valid, n - 1);
      } else {
        var lo := LastRun(ranges, valid, n);
        var lo' := LastRun(others, valid, n);
        assert lo == lo';
        RunsAreUnique(ranges[..|ranges| - 1], others[..|others| - 1], valid, lo);
      }
    } else {
      NoRuns(ranges, valid);
      NoRuns(others, valid);
    }
  }
}
