/*
 * `wpl_update_exclusion_list`: the Ajax handler that clears the excluded-post
 * list, adds an id to it, or removes the first id matching a submitted one.
 * The list is only ever written; nothing else in the plugin reads it.
 */
module GmbExclusion {
  import opened Wrappers
  import opened PhpValues
  import opened GmbOptions

  /** No two ids render to the same string, which is what `array_unique`
      compares. */
  predicate Distinct(xs: seq<PostId>) {
    forall i, j :: 0 <= i < j < |xs| ==> ToPhpString(xs[i]) != ToPhpString(xs[j])
  }

  /** Some id in `xs` renders as `x` does. */
  predicate HasTwin(xs: seq<PostId>, x: PostId) {
    exists i :: 0 <= i < |xs| && ToPhpString(xs[i]) == ToPhpString(x)
  }

  /** `array_unique`: the first of every group of ids with the same string
      rendering survives, in order. */
  function Dedup(xs: seq<PostId>): (r: seq<PostId>)
    ensures Distinct(r)
    ensures |r| <= |xs|
  {
    if |xs| == 0 then []
    else
      var init := Dedup(xs[..|xs| - 1]);
      var last := xs[|xs| - 1];
      if HasTwin(init, last) then init
      else
        assert forall i :: 0 <= i < |init| ==> (init + [last])[i] == init[i];
        init + [last]
  }

  /** Nothing is invented: every surviving id was in the list. */
  lemma {:induction false} DedupKeepsOnlyMembers(xs: seq<PostId>, i: nat)
    requires i < |Dedup(xs)|
    ensures Dedup(xs)[i] in xs
  {
    var init := Dedup(xs[..|xs| - 1]);
    assert xs == xs[..|xs| - 1] + [xs[|xs| - 1]];
    if i < |init| {
      DedupKeepsOnlyMembers(xs[..|xs| - 1], i);
    }
  }

  /** Nothing is lost: every id in the list has a twin that survives. */
  lemma {:induction false} DedupCovers(xs: seq<PostId>, x: PostId)
    requires x in xs
    ensures HasTwin(Dedup(xs), x)
  {
    var init := Dedup(xs[..|xs| - 1]);
    var last := xs[|xs| - 1];
    assert xs == xs[..|xs| - 1] + [last];
    var r := Dedup(xs);
    if x == last {
      if !HasTwin(init, last) {
        assert r[|init|] == last;
      }
    } else {
      assert x in xs[..|xs| - 1];
      DedupCovers(xs[..|xs| - 1], x);
      var i :| 0 <= i < |init| && ToPhpString(init[i]) == ToPhpString(x);
      assert r[i] == init[i];
    }
  }

  /** A list without duplicates is left as it is. */
  lemma {:induction false} DedupOfDistinct(xs: seq<PostId>)
    requires Distinct(xs)
    ensures Dedup(xs) == xs
  {
    if |xs| > 0 {
      var front := xs[..|xs| - 1];
      var last := xs[|xs| - 1];
      assert Distinct(front) by {
        forall i, j | 0 <= i < j < |front|
          ensures ToPhpString(front[i]) != ToPhpString(front[j])
        {
          assert front[i] == xs[i] && front[j] == xs[j];
        }
      }
      DedupOfDistinct(front);
      forall i | 0 <= i < |front|
        ensures ToPhpString(front[i]) != ToPhpString(last)
      {
        assert front[i] == xs[i];
      }
      assert xs == front + [last];
    }
  }

  /** The add branch: the submitted id through `absint`, appended, then the
      list deduplicated. */
  function AddExcluded(xs: seq<PostId>, postId: string): (r: seq<PostId>)
    ensures Distinct(r) && HasTwin(r, IntId(AbsInt(postId)))
    ensures forall x :: x in xs ==> HasTwin(r, x)
  {
    var ys := xs + [IntId(AbsInt(postId))];
    assert ys[|xs|] == IntId(AbsInt(postId));
    DedupCovers(ys, IntId(AbsInt(postId)));
    forall x | x in xs
      ensures HasTwin(Dedup(ys), x)
    {
      DedupCovers(ys, x);
    }
    Dedup(ys)
  }

  /** A submitted id in exponent notation is read as a number: adding
      "1e3" to an empty list stores listing 1000. */
  lemma AddReadsExponent()
    ensures AddExcluded([], "1e3") == [IntId(1000)]
  {
    IntValReadsExponent();
    AddToDistinct([], "1e3");
    assert !HasTwin([], IntId(1000));
  }

  /** On a duplicate-free list adding is appending, unless an id with the
      same rendering is already there. */
  lemma AddToDistinct(xs: seq<PostId>, postId: string)
    requires Distinct(xs)
    ensures AddExcluded(xs, postId) ==
            if HasTwin(xs, IntId(AbsInt(postId))) then xs else xs + [IntId(AbsInt(postId))]
  {
    var ys := xs + [IntId(AbsInt(postId))];
    assert ys[..|ys| - 1] == xs;
    DedupOfDistinct(xs);
  }

  /** Adding the same id twice is adding it once. */
  lemma AddIsIdempotent(xs: seq<PostId>, postId: string)
    ensures AddExcluded(AddExcluded(xs, postId), postId) == AddExcluded(xs, postId)
  {
    AddToDistinct(AddExcluded(xs, postId), postId);
  }

  /** The position of the first id loosely equal to the submitted string. */
  function FirstLooseMatch(xs: seq<PostId>, postId: string): (r: Option<nat>)
    ensures r.Some? ==> r.value < |xs| && LooseEq(xs[r.value], StrId(postId))
    ensures r.Some? ==> forall j :: 0 <= j < r.value ==> !LooseEq(xs[j], StrId(postId))
    ensures r.None? <==> forall j :: 0 <= j < |xs| ==> !LooseEq(xs[j], StrId(postId))
  {
    if |xs| == 0 then None
    else if LooseEq(xs[0], StrId(postId)) then Some(0)
    else
      var r := FirstLooseMatch(xs[1..], postId);
      assert forall j :: 1 <= j < |xs| ==> xs[j] == xs[1..][j - 1];
      if r.Some? then Some(r.value + 1) else None
  }

  /** The remove branch: the first loosely matching id is spliced out and the
      loop stops; with no match the list is not written. */
  function RemoveExcluded(xs: seq<PostId>, postId: string): (r: Option<seq<PostId>>)
    ensures r.None? <==> forall j :: 0 <= j < |xs| ==> !LooseEq(xs[j], StrId(postId))
    ensures r.Some? ==> |r.value| == |xs| - 1
  {
    match FirstLooseMatch(xs, postId)
    case None => None
    case Some(i) => Some(xs[..i] + xs[i + 1..])
  }

  /** Only the first match goes: later ids that also match stay. */
  lemma RemoveTakesFirstOnly(xs: seq<PostId>, postId: string, i: nat)
    requires i < |xs| && LooseEq(xs[i], StrId(postId))
    requires forall j :: 0 <= j < i ==> !LooseEq(xs[j], StrId(postId))
    ensures RemoveExcluded(xs, postId) == Some(xs[..i] + xs[i + 1..])
  {
  }

  /** A request: `update_type` and `post_id` as posted, the latter absent
      when not posted at all. */
  datatype ExclusionRequest = ExclusionRequest(updateType: string, postId: Option<string>)

  /** The handler body after its permission and nonce checks: the settings
      written back, or nothing when the request does not lead to a write. */
  function UpdateExclusionList(s: Settings, req: ExclusionRequest): (r: Option<Settings>)
    ensures r.Some? ==> r.value == s.(posting := s.posting.(excludedPosts := r.value.posting.excludedPosts))
    ensures req.postId.None? ==> r.None?
    ensures req.postId.Some? && req.updateType == "clear" ==> r.Some? && r.value.posting.excludedPosts == []
    ensures req.postId.Some? && req.updateType == "add" ==>
              (r.Some? <==> !EmptyString(req.postId.value))
    ensures req.updateType == "add" && r.Some? ==>
              Distinct(r.value.posting.excludedPosts) &&
              HasTwin(r.value.posting.excludedPosts, IntId(AbsInt(req.postId.value)))
    ensures req.postId.Some? && req.updateType == "remove" ==>
              (r.Some? <==> !EmptyString(req.postId.value) &&
                            exists j :: 0 <= j < |s.posting.excludedPosts| &&
                                        LooseEq(s.posting.excludedPosts[j], StrId(req.postId.value)))
    ensures req.updateType == "remove" && r.Some? ==>
              |r.value.posting.excludedPosts| == |s.posting.excludedPosts| - 1
    ensures req.updateType != "clear" && req.updateType != "add" && req.updateType != "remove" ==> r.None?
  {
    if req.postId.None? then None
    else
      var id := req.postId.value;
      var xs := s.posting.excludedPosts;
      var write := (ys: seq<PostId>) => s.(posting := s.posting.(excludedPosts := ys));
      if req.updateType == "clear" then Some(write([]))
      else if req.updateType == "add" && !EmptyString(id) then Some(write(AddExcluded(xs, id)))
      else if req.updateType == "remove" && !EmptyString(id) then
        match RemoveExcluded(xs, id)
        case None => None
        case Some(ys) => Some(write(ys))
      else None
  }

  /** Every id the plugin itself adds is an integer. */
  predicate AllInts(xs: seq<PostId>) {
    forall i :: 0 <= i < |xs| ==> xs[i].IntId?
  }

  /** Among integer ids, a rendering twin is the same id. */
  lemma {:induction false} IntTwinIsSame(xs: seq<PostId>, n: int)
    requires AllInts(xs)
    ensures HasTwin(xs, IntId(n)) <==> IntId(n) in xs
  {
    if HasTwin(xs, IntId(n)) {
      var i :| 0 <= i < |xs| && ToPhpString(xs[i]) == ToPhpString(IntId(n));
      IntToStringRoundTrip(n);
      IntToStringRoundTrip(xs[i].n);
      assert xs[i] == IntId(n);
    }
    if IntId(n) in xs {
      var i :| 0 <= i < |xs| && xs[i] == IntId(n);
      assert ToPhpString(xs[i]) == ToPhpString(IntId(n));
    }
  }

  /** Adding a new integer id to a list of distinct integers appends it. */
  lemma AddNewInt(xs: seq<PostId>, n: nat)
    requires AllInts(xs) && Distinct(xs) && IntId(n) !in xs
    ensures AddExcluded(xs, IntToString(n)) == xs + [IntId(n)]
  {
    IntValRoundTrip(n);
    IntTwinIsSame(xs, n);
    AddToDistinct(xs, IntToString(n));
  }

  /** No other integer is loosely equal to the rendering of `n`. */
  lemma NoOtherIntMatches(xs: seq<PostId>, n: nat)
    requires AllInts(xs) && IntId(n) !in xs
    ensures forall j :: 0 <= j < |xs| ==> !LooseEq(xs[j], StrId(IntToString(n)))
  {
    IntToStringRoundTrip(n);
    forall j | 0 <= j < |xs|
      ensures !LooseEq(xs[j], StrId(IntToString(n)))
    {
      assert xs[j].IntId? && xs[j] != IntId(n);
    }
  }

  /** Adding a listing id from the list page and removing it again restores
      the list, for every list the plugin itself builds: distinct integers. */
  lemma AddThenRemove(xs: seq<PostId>, n: nat)
    requires AllInts(xs) && Distinct(xs) && IntId(n) !in xs
    ensures RemoveExcluded(AddExcluded(xs, IntToString(n)), IntToString(n)) == Some(xs)
  {
    var id := IntToString(n);
    AddNewInt(xs, n);
    var ys := xs + [IntId(n)];
    NoOtherIntMatches(xs, n);
    assert forall j :: 0 <= j < |xs| ==> ys[j] == xs[j];
    LooseEqIntAndItsString(n);
    assert LooseEq(ys[|xs|], StrId(id));
    RemoveTakesFirstOnly(ys, id, |xs|);
    assert ys[..|xs|] + ys[|xs| + 1..] == xs;
  }

  /** Adding keeps the plugin's lists in shape: integers, no duplicates. */
  lemma AddKeepsListsWellFormed(xs: seq<PostId>, postId: string)
    requires AllInts(xs)
    ensures AllInts(AddExcluded(xs, postId)) && Distinct(AddExcluded(xs, postId))
  {
    var ys := xs + [IntId(AbsInt(postId))];
    var r := AddExcluded(xs, postId);
    forall i | 0 <= i < |r|
      ensures r[i].IntId?
    {
      DedupKeepsOnlyMembers(ys, i);
    }
  }
}
