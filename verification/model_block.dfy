/**
 The model blocklist: masks in which "*" stands for any run of characters. The
 matcher is greedy (each middle part at its leftmost place); its meaning is declarative: some
 assignment of substrings to the stars turns the pattern into the string.
 */
module ModelBlock {

  // ---------------------------------------------------------------- meaning

  function Stars(pattern: string): nat {
    if pattern == "" then 0 else (if pattern[0] == '*' then 1 else 0) + Stars(pattern[1..])
  }

  /** The pattern with its stars replaced, from the left, by `subs`. */
  function Fill(pattern: string, subs: seq<string>): string
    requires |subs| == Stars(pattern)
  {
    if pattern == "" then ""
    else if pattern[0] == '*' then subs[0] + Fill(pattern[1..], subs[1..])
    else [pattern[0]] + Fill(pattern[1..], subs)
  }

  ghost predicate Matches(pattern: string, s: string) {
    exists subs: seq<string> :: |subs| == Stars(pattern) && Fill(pattern, subs) == s
  }

  // ---------------------------------------------------------------- strings

  predicate HasPrefix(s: string, p: string) { p <= s }

  predicate HasSuffix(s: string, p: string) { |p| <= |s| && s[|s| - |p|..] == p }

  predicate OccursAt(s: string, p: string, i: nat) { i + |p| <= |s| && s[i..i + |p|] == p }

  /** strings.Index: the leftmost occurrence, or -1. */
  method Index(s: string, p: string) returns (i: int)
    ensures -1 <= i
    ensures i >= 0 ==> OccursAt(s, p, i) && forall k: nat :: k < i ==> !OccursAt(s, p, k)
    ensures i < 0 ==> forall k: nat :: !OccursAt(s, p, k)
  {
    i := 0;
    while i + |p| <= |s|
      invariant 0 <= i
      invariant forall k: nat :: k < i ==> !OccursAt(s, p, k)
      decreases |s| - i
    {
      if s[i..i + |p|] == p { return; }
      i := i + 1;
    }
    i := -1;
  }

  /** strings.Split(pattern, "*"). */
  function Split(pattern: string): (parts: seq<string>)
    ensures |parts| == Stars(pattern) + 1
  {
    if pattern == "" then [""]
    else
      var rest := Split(pattern[1..]);
      if pattern[0] == '*' then [""] + rest else [[pattern[0]] + rest[0]] + rest[1..]
  }

  // ---------------------------------------------------------------- greedy is enough

  /** parts[0] subs[0] parts[1] subs[1] ... parts[n]. */
  function Weave(parts: seq<string>, subs: seq<string>): string
    requires |parts| == |subs| + 1
  {
    if subs == [] then parts[0] else parts[0] + subs[0] + Weave(parts[1..], subs[1..])
  }

  lemma {:induction false} FillIsWeave(pattern: string, subs: seq<string>)
    requires |subs| == Stars(pattern)
    ensures Fill(pattern, subs) == Weave(Split(pattern), subs)
  {
    if pattern != "" {
      var rest := Split(pattern[1..]);
      if pattern[0] == '*' {
        FillIsWeave(pattern[1..], subs[1..]);
        assert Split(pattern)[1..] == rest;
      } else {
        FillIsWeave(pattern[1..], subs);
        assert Split(pattern)[1..] == rest[1..];
        if subs != [] {
          assert [pattern[0]] + (rest[0] + subs[0] + Weave(rest[1..], subs[1..])) ==
                 [pattern[0]] + rest[0] + subs[0] + Weave(rest[1..], subs[1..]);
        }
      }
    }
  }

  /** t can be cut into gap ps[0] gap ps[1] ... gap ps[last], the last part at the very end. */
  ghost predicate Fits(ps: seq<string>, t: string)
    requires ps != []
  {
    if |ps| == 1 then HasSuffix(t, ps[0])
    else exists k: nat :: OccursAt(t, ps[0], k) && Fits(ps[1..], t[k + |ps[0]|..])
  }

  /** The first gap can always absorb more. */
  lemma FitsLonger(ps: seq<string>, x: string, t: string)
    requires ps != [] && Fits(ps, t)
    ensures Fits(ps, x + t)
  {
    if |ps| == 1 {
      assert (x + t)[|x + t| - |ps[0]|..] == t[|t| - |ps[0]|..];
    } else {
      var k: nat :| OccursAt(t, ps[0], k) && Fits(ps[1..], t[k + |ps[0]|..]);
      var k' := |x| + k;
      assert (x + t)[k'..k' + |ps[0]|] == t[k..k + |ps[0]|];
      assert (x + t)[k' + |ps[0]|..] == t[k + |ps[0]|..];
      assert OccursAt(x + t, ps[0], k');
    }
  }

  /** Taking the leftmost occurrence of the next part never loses a match. */
  lemma LeftmostIsEnough(ps: seq<string>, t: string, i: nat)
    requires |ps| > 1 && OccursAt(t, ps[0], i)
    requires forall k: nat :: k < i ==> !OccursAt(t, ps[0], k)
    ensures Fits(ps, t) <==> Fits(ps[1..], t[i + |ps[0]|..])
  {
    if Fits(ps, t) {
      var k: nat :| OccursAt(t, ps[0], k) && Fits(ps[1..], t[k + |ps[0]|..]);
      var from := i + |ps[0]|;
      assert t[from..] == t[from..k + |ps[0]|] + t[k + |ps[0]|..];
      FitsLonger(ps[1..], t[from..k + |ps[0]|], t[k + |ps[0]|..]);
    }
  }

  lemma {:induction false} FitsThenWeave(ps: seq<string>, t: string) returns (subs: seq<string>)
    requires ps != [] && Fits(ps, t)
    ensures |subs| == |ps| && Weave([""] + ps, subs) == t
  {
    hide Weave;
    if |ps| == 1 {
      var gap := t[..|t| - |ps[0]|];
      subs := [gap];
      WeaveLast(ps, gap);
      assert t == gap + ps[0];
    } else {
      var k: nat :| OccursAt(t, ps[0], k) && Fits(ps[1..], t[k + |ps[0]|..]);
      var (gap, rest) := (t[..k], t[k + |ps[0]|..]);
      var more := FitsThenWeave(ps[1..], rest);
      subs := [gap] + more;
      WeaveFirst(ps, gap, more);
      assert t == gap + (ps[0] + rest);
    }
  }

  lemma WeaveLast(ps: seq<string>, gap: string)
    requires |ps| == 1
    ensures Weave([""] + ps, [gap]) == gap + ps[0]
  {
    assert [gap] == [gap] + [];
    WeaveUnfolds("", ps, gap, []);
  }

  lemma WeaveFirst(ps: seq<string>, first: string, more: seq<string>)
    requires |ps| == |more| + 1 && more != []
    ensures Weave([""] + ps, [first] + more) == first + (ps[0] + Weave([""] + ps[1..], more))
  {
    hide Weave;
    WeaveUnfolds("", ps, first, more);
    MovePart(ps, more);
  }

  lemma WeaveUnfolds(part: string, ps: seq<string>, first: string, more: seq<string>)
    requires |ps| == |more| + 1
    ensures Weave([part] + ps, [first] + more) == part + first + Weave(ps, more)
    ensures Weave([""] + ps, [first] + more) == first + Weave(ps, more)
  {
    assert ([part] + ps)[1..] == ps && ([""] + ps)[1..] == ps && ([first] + more)[1..] == more;
    assert "" + first == first;
  }

  lemma MovePart(ps: seq<string>, subs: seq<string>)
    requires |ps| == |subs| + 1 && subs != []
    ensures Weave(ps, subs) == ps[0] + Weave([""] + ps[1..], subs)
  {
    assert ([""] + ps[1..])[1..] == ps[1..];
    assert ps[0] + ("" + subs[0] + Weave(ps[1..], subs[1..])) == ps[0] + subs[0] + Weave(ps[1..], subs[1..]);
  }

  lemma {:induction false} WeaveThenFits(ps: seq<string>, subs: seq<string>)
    requires ps != [] && |subs| == |ps|
    ensures Fits(ps, Weave([""] + ps, subs))
    decreases |ps|
  {
    var t := Weave([""] + ps, subs);
    assert ([""] + ps)[1..] == ps;
    assert t == subs[0] + Weave(ps, subs[1..]);
    if |ps| > 1 {
      MovePart(ps, subs[1..]);
      var rest := Weave([""] + ps[1..], subs[1..]);
      WeaveThenFits(ps[1..], subs[1..]);
      assert t == subs[0] + ps[0] + rest;
      assert OccursAt(t, ps[0], |subs[0]|) && t[|subs[0]| + |ps[0]|..] == rest;
    }
  }

  /** What the matcher computes is the declarative meaning. */
  lemma MatchesIffFits(pattern: string, s: string)
    requires '*' in pattern
    ensures var parts := Split(pattern);
            |parts| > 1 &&
            (Matches(pattern, s) <==> HasPrefix(s, parts[0]) && Fits(parts[1..], s[|parts[0]|..]))
  {
    StarsPositive(pattern);
    var parts := Split(pattern);
    var ps := parts[1..];
    assert parts == [parts[0]] + ps;
    if Matches(pattern, s) {
      var subs: seq<string> :| |subs| == Stars(pattern) && Fill(pattern, subs) == s;
      FillIsWeave(pattern, subs);
      MovePart(parts, subs);
      WeaveThenFits(ps, subs);
    }
    if HasPrefix(s, parts[0]) && Fits(ps, s[|parts[0]|..]) {
      var subs := FitsThenWeave(ps, s[|parts[0]|..]);
      MovePart(parts, subs);
      FillIsWeave(pattern, subs);
      assert Fill(pattern, subs) == parts[0] + s[|parts[0]|..] == s;
    }
  }

  lemma StarsPositive(pattern: string)
    ensures '*' in pattern <==> Stars(pattern) > 0
  {
    if pattern != "" {
      StarsPositive(pattern[1..]);
      assert pattern == [pattern[0]] + pattern[1..];
    }
  }

  /** Greedy leftmost matching decides the declarative meaning of every pattern with a star. */
  method Glob(pattern: string, s: string) returns (ok: bool)
    requires '*' in pattern
    ensures ok <==> Matches(pattern, s)
  {
    MatchesIffFits(pattern, s);
    var parts := Split(pattern);
    if !HasPrefix(s, parts[0]) {
      return false;
    }
    var rest := s[|parts[0]|..];
    var n := |parts|;
    for j := 1 to n - 1
      invariant Matches(pattern, s) <==> Fits(parts[j..], rest)
    {
      var p := parts[j];
      var i := Index(rest, p);
      assert parts[j..][0] == p && parts[j..][1..] == parts[j + 1..];
      if i < 0 {
        return false;
      }
      LeftmostIsEnough(parts[j..], rest, i);
      rest := rest[i + |p|..];
    }
    return HasSuffix(rest, parts[n - 1]);
  }

  // ---------------------------------------------------------------- masks

  /**
   What a mask blocks. Without a star it covers the exact id and any variant that
   continues with "-". Mask and model have been trimmed and lower-cased.
   */
  ghost predicate Covers(mask: string, model: string) {
    && mask != "" && model != ""
    && (if '*' in mask then Matches(mask, model) else model == mask || Matches(mask + "-*", model))
  }

  /** What a mask without a star covers: the id itself, and the id with a dash and anything after it. */
  lemma CoversMeans(mask: string, model: string)
    requires '*' !in mask
    ensures Covers(mask, model) <==>
              mask != "" && model != "" && (model == mask || exists rest :: model == mask + "-" + rest)
    ensures !Covers("", model) && !Covers(model, "")
  {
    PrefixIsStar(mask + "-", model);
    assert mask + "-" + "*" == mask + "-*";
    if HasPrefix(model, mask + "-") { assert model == mask + "-" + model[|mask| + 1..]; }
    if rest :| model == mask + "-" + rest { assert model[..|mask| + 1] == mask + "-"; }
  }

  lemma {:induction false} PrefixIsStar(mask: string, model: string)
    requires '*' !in mask
    ensures HasPrefix(model, mask) <==> Matches(mask + "*", model)
  {
    SplitPrefix(mask);
    StarsPositive(mask + "*");
    MatchesIffFits(mask + "*", model);
  }

  lemma {:induction false} SplitPrefix(mask: string)
    requires '*' !in mask
    ensures Split(mask + "*") == [mask, ""]
  {
    if mask == "" {
      assert ("" + "*")[1..] == "" && Split("") == [""];
    } else {
      SplitPrefix(mask[1..]);
      assert mask == [mask[0]] + mask[1..];
      assert (mask + "*")[0] == mask[0] && (mask + "*")[1..] == mask[1..] + "*";
    }
  }

  /** `fold` trims and lower-cases. */
  method Match(mask: string, model: string, fold: string -> string) returns (ok: bool)
    ensures ok <==> Covers(fold(mask), fold(model))
  {
    var m, id := fold(mask), fold(model);
    if m == "" || id == "" {
      return false;
    }
    if !('*' in m) {
      PrefixIsStar(m + "-", id);
      assert m + "-" + "*" == m + "-*";
      return id == m || HasPrefix(id, m + "-");
    }
    ok := Glob(m, id);
  }

  /** Mask j covers name i, no earlier mask does, and no mask covers an earlier name. */
  ghost predicate FirstHit(masks: seq<string>, models: seq<string>, fold: string -> string, i: nat, j: nat) {
    && i < |models| && j < |masks| && Covers(fold(masks[j]), fold(models[i]))
    && (forall j' :: 0 <= j' < j ==> !Covers(fold(masks[j']), fold(models[i])))
    && (forall i', j' :: 0 <= i' < i && 0 <= j' < |masks| ==> !Covers(fold(masks[j']), fold(models[i'])))
  }

  /** None of the first `n` masks covers the name. */
  ghost predicate Clear(masks: seq<string>, model: string, fold: string -> string, n: nat) {
    forall j :: 0 <= j < n && j < |masks| ==> !Covers(fold(masks[j]), fold(model))
  }

  lemma BlankIsClear(masks: seq<string>, model: string, fold: string -> string)
    requires fold(model) == ""
    ensures Clear(masks, model, fold, |masks|)
  {}

  class List {
    const config: seq<string>
    var operator: seq<string>

    constructor (config: seq<string>, operator: seq<string>)
      ensures this.config == config && this.operator == operator
    {
      this.config, this.operator := config, operator;
    }

    /**
     The first mask that covers one of the names: names in order, and for each the
     config masks before the operator's. Names that are blank after folding are ignored.
     */
    method Blocked(models: seq<string>, fold: string -> string) returns (mask: string, ok: bool)
      ensures ok <==> exists i, j :: 0 <= i < |models| && 0 <= j < |config + operator| &&
                        Covers(fold((config + operator)[j]), fold(models[i]))
      ensures ok ==>
          exists i: nat, j: nat :: FirstHit(config + operator, models, fold, i, j) && mask == (config + operator)[j]
    {
      hide Covers;
      var masks := config + operator;
      for i := 0 to |models|
        invariant forall i' :: 0 <= i' < i ==> Clear(masks, models[i'], fold, |masks|)
      {
        if fold(models[i]) == "" {
          BlankIsClear(masks, models[i], fold);
          continue;
        }
        for j := 0 to |masks|
          invariant Clear(masks, models[i], fold, j)
        {
          var hit := Match(masks[j], models[i], fold);
          if hit {
            assert FirstHit(masks, models, fold, i, j);
            return masks[j], true;
          }
        }
      }
      return "", false;
    }
  }
}
