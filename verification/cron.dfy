/*
 * The cron tick `wpl_gmb_scheduled_post` and what it calls: the next
 * scheduled post when there is one, otherwise (when enabled) the newest
 * listing not yet shared, otherwise nothing.
 */
module GmbCron {
  import opened Wrappers
  import opened PhpValues
  import opened GmbOptions
  import opened GmbLogs
  import opened GmbLocations
  import opened GmbSchedule
  import opened GmbCompose
  import opened GmbPublish

  const PostLookupFailed := "Failed - Issue with locating listing post from ID."

  /** What a tick learns from WordPress besides the settings: whether
      `get_post_status` gives the head of the schedule any status at all (the
      post exists, whether published, draft, pending, private or trashed), the
      ids of the (up to fifty) newest published listings, newest first, the
      post `get_post` returns for the id being posted, and the remote side of
      the attempt. */
  datatype TickInput = TickInput(headExists: bool, recent: seq<int>, post: Option<ListingPost>, remote: Remote)

  /** `in_array( $id, $used )`, loose comparison. */
  predicate UsedLoosely(id: int, used: seq<PostId>) {
    exists j :: 0 <= j < |used| && LooseEq(IntId(id), used[j])
  }

  /** The first position of `recent` whose id is not in the used list. */
  function FirstUnused(recent: seq<int>, used: seq<PostId>): (r: Option<nat>)
    ensures r.Some? ==> r.value < |recent| && !UsedLoosely(recent[r.value], used)
    ensures r.Some? ==> forall j :: 0 <= j < r.value ==> UsedLoosely(recent[j], used)
    ensures r.None? <==> forall j :: 0 <= j < |recent| ==> UsedLoosely(recent[j], used)
  {
    if |recent| == 0 then None
    else if !UsedLoosely(recent[0], used) then Some(0)
    else
      var r := FirstUnused(recent[1..], used);
      assert forall j :: 1 <= j < |recent| ==> recent[j] == recent[1..][j - 1];
      if r.Some? then Some(r.value + 1) else None
  }

  /** What the listing-data flow posts: the defaults, or a listing; and
      whether the used list is cleared first. */
  datatype Candidate = Defaults(resetUsed: bool) | Listing(id: int, resetUsed: bool)

  /** Candidate selection of `wpl_gmb_post_with_listing_data`. */
  function SelectCandidate(recent: seq<int>, used: seq<PostId>): (c: Candidate)
    ensures |recent| == 0 <==> c == Defaults(false)
    ensures c.resetUsed <==> |recent| > 0 && forall j :: 0 <= j < |recent| ==> UsedLoosely(recent[j], used)
    ensures c.Listing? && !c.resetUsed ==>
              exists i :: 0 <= i < |recent| && recent[i] == c.id && !UsedLoosely(c.id, used) &&
                          forall j :: 0 <= j < i ==> UsedLoosely(recent[j], used)
    ensures c.Listing? && c.resetUsed ==> c.id == recent[0] && c.id != 0
    ensures c.Defaults? && c.resetUsed ==> recent[0] == 0
  {
    if |recent| == 0 then Defaults(false)
    else match FirstUnused(recent, used)
      case Some(i) => Listing(recent[i], false)
      case None => if recent[0] != 0 then Listing(recent[0], true) else Defaults(true)
  }

  /** `wpl_gmb_get_data_from_post_id`. */
  function PostFromId(st: State, host: Host, input: TickInput, postId: PostId): (r: Attempt)
    ensures input.post.None? ==> r.sent.None? && r.state == LogState(st, PostLookupFailed)
    ensures r.sent.Some? ==> input.post.Some?
    ensures r.sent.Some? ==>
              var d := ComposeDraft(st.options.defaults, input.post.value);
              && r.sent.value.summary == SummaryText(host, d.summary)
              && r.sent.value.photoUrl == host.validateUrl(d.photoUrl)
              && r.sent.value.pageUrl == host.validateUrl(d.pageUrl)
    ensures r.state.options.posting.(scheduledPosts := st.options.posting.scheduledPosts) == st.options.posting
    ensures |r.state.options.posting.scheduledPosts| <= |st.options.posting.scheduledPosts|
  {
    match input.post
    case None => Attempt(LogState(st, PostLookupFailed), None)
    case Some(p) =>
      var d := ComposeDraft(st.options.defaults, p);
      Publish(st, host, input.remote, d.summary, d.photoUrl, d.pageUrl, Some(postId))
  }

  /** `publish_default_post_to_gmb`. */
  function PublishDefaults(st: State, host: Host, remote: Remote): (r: Attempt)
    ensures r.sent.Some? ==> && r.sent.value.summary == SummaryText(host, st.options.defaults.summary)
                             && r.sent.value.photoUrl == host.validateUrl(st.options.defaults.photo)
                             && r.sent.value.pageUrl == host.validateUrl(st.options.defaults.link)
    ensures r.state.options.logs.usedPostIds == st.options.logs.usedPostIds
    ensures r.state.options.posting == st.options.posting
  {
    var d := st.options.defaults;
    Publish(st, host, remote, d.summary, d.photo, d.link, None)
  }

  /** `wpl_gmb_post_with_listing_data`. */
  function PostWithListingData(st: State, host: Host, input: TickInput): (r: Attempt)
    ensures |input.recent| == 0 ==> r == PublishDefaults(st, host, input.remote)
    ensures var used := st.options.logs.usedPostIds;
            FirstUnused(input.recent, used).Some? ==>
              r == PostFromId(st, host, input, IntId(input.recent[FirstUnused(input.recent, used).value]))
    ensures var cleared := st.(options := UpdateLogs(st.options, UsedKey, LogArray([])));
            |input.recent| > 0 && FirstUnused(input.recent, st.options.logs.usedPostIds).None? ==>
              r == if input.recent[0] != 0 then PostFromId(cleared, host, input, IntId(input.recent[0]))
                   else PublishDefaults(cleared, host, input.remote)
  {
    var c := SelectCandidate(input.recent, st.options.logs.usedPostIds);
    var cleared := if c.resetUsed then st.(options := UpdateLogs(st.options, UsedKey, LogArray([]))) else st;
    match c
    case Defaults(_) => PublishDefaults(cleared, host, input.remote)
    case Listing(id, _) => PostFromId(cleared, host, input, IntId(id))
  }

  /** `wpl_gmb_scheduled_post`: the status is cleared; then the head of the
      schedule is posted when it exists as a post, else the listing-data
      flow runs when enabled, else nothing happens. */
  function ScheduledTick(st: State, host: Host, input: TickInput): (r: Attempt)
    ensures r.sent.Some? ==> (|st.options.posting.scheduledPosts| > 0 && input.headExists) ||
                             st.options.posting.emptyScheduleAutoPost
    ensures r.state.options.posting.(scheduledPosts := st.options.posting.scheduledPosts) == st.options.posting
    ensures |r.state.options.posting.scheduledPosts| <= |st.options.posting.scheduledPosts|
  {
    var cleared := LogState(st, "");
    var scheduled := cleared.options.posting.scheduledPosts;
    if |scheduled| > 0 && input.headExists then PostFromId(cleared, host, input, scheduled[0])
    else if cleared.options.posting.emptyScheduleAutoPost then PostWithListingData(cleared, host, input)
    else Attempt(cleared, None)
  }

  /** Tick dispatch: the schedule's head wins; the listing-data flow runs
      only when the head names no existing post and auto-posting is on; an
      idle tick only clears the status message. */
  lemma TickDispatch(st: State, host: Host, input: TickInput)
    ensures var scheduled := st.options.posting.scheduledPosts;
            var cleared := LogState(st, "");
            var r := ScheduledTick(st, host, input);
            (|scheduled| > 0 && input.headExists ==> r == PostFromId(cleared, host, input, scheduled[0])) &&
            (!(|scheduled| > 0 && input.headExists) && st.options.posting.emptyScheduleAutoPost ==>
               r == PostWithListingData(cleared, host, input)) &&
            (!(|scheduled| > 0 && input.headExists) && !st.options.posting.emptyScheduleAutoPost ==>
               r.sent.None? && r.state.timer == st.timer &&
               r.state.options == st.options.(logs := st.options.logs.(statusMessage := "")))
  {
  }

  /** A missing post is logged and nothing is sent. */
  lemma MissingPostLogged(st: State, host: Host, input: TickInput, postId: PostId)
    requires input.post.None?
    ensures PostFromId(st, host, input, postId) == Attempt(LogState(st, PostLookupFailed), None)
  {
  }

  /** The conditions under which a composed draft reaches Google with a
      200 answer. */
  predicate Delivers(st: State, host: Host, remote: Remote, d: Draft) {
    && PassesFinalCheck(host, d.summary, d.photoUrl, d.pageUrl)
    && |remote.fetched| > 0 && remote.tokenAvailable
    && FirstShared(SavedLocations(st.options.locations, remote.fetched).value).Some?
    && remote.response == HttpResponse(200, None)
  }

  /** An existing head of the schedule, whatever its status, that Google
      accepts leaves the schedule, the rest kept in order; since the schedule
      holds string ids, the used-post log is left as it was. */
  lemma ScheduledHeadConsumed(st: State, host: Host, input: TickInput, rest: seq<PostId>, head: string)
    requires st.options.posting.scheduledPosts == [StrId(head)] + rest && !EmptyString(head)
    requires input.headExists && input.post.Some?
    requires Delivers(LogState(st, ""), host, input.remote,
                      ComposeDraft(st.options.defaults, input.post.value))
    ensures var r := ScheduledTick(st, host, input);
            && r.sent.Some?
            && r.state.options.posting.scheduledPosts == rest
            && r.state.options.logs.usedPostIds == st.options.logs.usedPostIds
            && r.state.options.logs.statusMessage == PostSuccessful
            && r.state.timer == st.timer
  {
    var cleared := LogState(st, "");
    var d := ComposeDraft(cleared.options.defaults, input.post.value);
    var merged := MergedState(cleared, input.remote);
    OnlyFirstSharedLocation(cleared, host, input.remote, d.summary, d.photoUrl, d.pageUrl, Some(StrId(head)));
    assert StrictIndex(merged.options.posting.scheduledPosts, StrId(head)) == Some(0);
    SuccessPath(merged, StrId(head), input.remote.now);
  }

  /** When every recent listing has been used, the used list is cleared and
      the newest listing is posted; accepted by Google, it is then the only
      id in the log. */
  lemma ExhaustedListingsRestart(st: State, host: Host, input: TickInput)
    requires |input.recent| > 0 && input.recent[0] != 0
    requires forall j :: 0 <= j < |input.recent| ==> UsedLoosely(input.recent[j], st.options.logs.usedPostIds)
    requires input.post.Some?
    requires StrictIndex(st.options.posting.scheduledPosts, IntId(input.recent[0])).None?
    requires Delivers(st, host, input.remote, ComposeDraft(st.options.defaults, input.post.value))
    ensures var r := PostWithListingData(st, host, input);
            r.sent.Some? && r.state.options.logs.usedPostIds == [IntId(input.recent[0])]
  {
    var id := IntId(input.recent[0]);
    var cleared := st.(options := UpdateLogs(st.options, UsedKey, LogArray([])));
    assert cleared.options.logs.usedPostIds == [];
    assert SelectCandidate(input.recent, st.options.logs.usedPostIds) == Listing(input.recent[0], true);
    var d := ComposeDraft(cleared.options.defaults, input.post.value);
    var r := Publish(cleared, host, input.remote, d.summary, d.photoUrl, d.pageUrl, Some(id));
    assert PostWithListingData(st, host, input) == r;
    var merged := MergedState(cleared, input.remote);
    assert merged.options.locations == SavedLocations(st.options.locations, input.remote.fetched).value;
    OnlyFirstSharedLocation(cleared, host, input.remote, d.summary, d.photoUrl, d.pageUrl, Some(id));
    assert r.state == Classify(merged, HttpResponse(200, None), input.remote.now, Some(id));
    assert merged.options.posting.scheduledPosts == st.options.posting.scheduledPosts;
    SuccessPath(merged, id, input.remote.now);
  }

  /** The state with a different exclusion list. */
  function WithExcluded(st: State, excluded: seq<PostId>): State {
    st.(options := st.options.(posting := st.options.posting.(excludedPosts := excluded)))
  }

  function AttemptWithExcluded(a: Attempt, excluded: seq<PostId>): Attempt {
    a.(state := WithExcluded(a.state, excluded))
  }

  lemma ClassifyIgnoresExcluded(st: State, response: Response, now: int, postId: Option<PostId>, excluded: seq<PostId>)
    ensures Classify(WithExcluded(st, excluded), response, now, postId)
            == WithExcluded(Classify(st, response, now, postId), excluded)
  {
    var other := WithExcluded(st, excluded);
    match response
    case TransportError =>
    case HttpResponse(code, _) =>
      if code == 200 {
        OnSuccessIgnoresExcluded(st.options, postId, excluded);
        assert other.options == st.options.(posting := st.options.posting.(excludedPosts := excluded));
      }
  }

  lemma OnSuccessIgnoresExcluded(s: Settings, postId: Option<PostId>, excluded: seq<PostId>)
    ensures var other := s.(posting := s.posting.(excludedPosts := excluded));
            var r := OnSuccess(s, postId);
            OnSuccess(other, postId) == r.(posting := r.posting.(excludedPosts := excluded))
  {
    var other := s.(posting := s.posting.(excludedPosts := excluded));
    if postId.Some? && Truthy(postId.value) {
      var v := IdAsLogValue(postId.value);
      var logged := UpdateLogs(s, UsedKey, v);
      assert UpdateLogs(other, UsedKey, v) == logged.(posting := logged.posting.(excludedPosts := excluded));
      var scheduled := s.posting.scheduledPosts;
      match StrictIndex(scheduled, postId.value)
      case Some(i) =>
        var written := s.(posting := s.posting.(scheduledPosts := RemoveAt(scheduled, i)));
        assert OnSuccess(s, postId) == Log(written, PostSuccessful);
      case None =>
        assert OnSuccess(s, postId) == Log(logged, PostSuccessful);
    }
  }

  lemma PublishIgnoresExcluded(st: State, host: Host, remote: Remote, summary: string, photoUrl: string,
                               pageUrl: string, postId: Option<PostId>, excluded: seq<PostId>)
    ensures Publish(WithExcluded(st, excluded), host, remote, summary, photoUrl, pageUrl, postId)
            == AttemptWithExcluded(Publish(st, host, remote, summary, photoUrl, pageUrl, postId), excluded)
  {
    if PassesFinalCheck(host, summary, photoUrl, pageUrl) && |remote.fetched| > 0 && remote.tokenAvailable {
      var merged := MergedState(st, remote);
      if FirstShared(merged.options.locations).Some? {
        OnlyFirstSharedLocation(st, host, remote, summary, photoUrl, pageUrl, postId);
        OnlyFirstSharedLocation(WithExcluded(st, excluded), host, remote, summary, photoUrl, pageUrl, postId);
        assert MergedState(WithExcluded(st, excluded), remote) == WithExcluded(merged, excluded);
        ClassifyIgnoresExcluded(merged, remote.response, remote.now, postId, excluded);
      }
    }
  }

  lemma PostFromIdIgnoresExcluded(st: State, host: Host, input: TickInput, postId: PostId, excluded: seq<PostId>)
    ensures PostFromId(WithExcluded(st, excluded), host, input, postId)
            == AttemptWithExcluded(PostFromId(st, host, input, postId), excluded)
  {
    if input.post.Some? {
      var d := ComposeDraft(st.options.defaults, input.post.value);
      PublishIgnoresExcluded(st, host, input.remote, d.summary, d.photoUrl, d.pageUrl, Some(postId), excluded);
    }
  }

  lemma ListingDataIgnoresExcluded(st: State, host: Host, input: TickInput, excluded: seq<PostId>)
    ensures PostWithListingData(WithExcluded(st, excluded), host, input)
            == AttemptWithExcluded(PostWithListingData(st, host, input), excluded)
  {
    var c := SelectCandidate(input.recent, st.options.logs.usedPostIds);
    var cleared := if c.resetUsed then st.(options := UpdateLogs(st.options, UsedKey, LogArray([]))) else st;
    assert (if c.resetUsed then WithExcluded(st, excluded).(options := UpdateLogs(WithExcluded(st, excluded).options, UsedKey, LogArray([])))
            else WithExcluded(st, excluded)) == WithExcluded(cleared, excluded);
    match c
    case Defaults(_) =>
      var d := cleared.options.defaults;
      PublishIgnoresExcluded(cleared, host, input.remote, d.summary, d.photo, d.link, None, excluded);
    case Listing(id, _) =>
      PostFromIdIgnoresExcluded(cleared, host, input, IntId(id), excluded);
  }

  /** The exclusion list is never consulted: a tick behaves the same
      whatever it holds, and leaves it as it was. */
  lemma ExclusionListIgnored(st: State, host: Host, input: TickInput, excluded: seq<PostId>)
    ensures ScheduledTick(WithExcluded(st, excluded), host, input)
            == AttemptWithExcluded(ScheduledTick(st, host, input), excluded)
  {
    var cleared := LogState(st, "");
    assert LogState(WithExcluded(st, excluded), "") == WithExcluded(cleared, excluded);
    var scheduled := cleared.options.posting.scheduledPosts;
    if |scheduled| > 0 && input.headExists {
      PostFromIdIgnoresExcluded(cleared, host, input, scheduled[0], excluded);
    } else if cleared.options.posting.emptyScheduleAutoPost {
      ListingDataIgnoresExcluded(cleared, host, input, excluded);
    }
  }

  /** No tick lets the used-post log outgrow fifty ids. */
  lemma TickKeepsLogBound(st: State, host: Host, input: TickInput)
    requires |st.options.logs.usedPostIds| <= MaxUsedPostIds
    ensures |ScheduledTick(st, host, input).state.options.logs.usedPostIds| <= MaxUsedPostIds
  {
    var cleared := LogState(st, "");
    var scheduled := cleared.options.posting.scheduledPosts;
    if |scheduled| > 0 && input.headExists {
      if input.post.Some? {
        var d := ComposeDraft(cleared.options.defaults, input.post.value);
        PublishKeepsLogBound(cleared, host, input.remote, d.summary, d.photoUrl, d.pageUrl, Some(scheduled[0]));
      }
    } else if cleared.options.posting.emptyScheduleAutoPost {
      var c := SelectCandidate(input.recent, cleared.options.logs.usedPostIds);
      var c2 := if c.resetUsed then cleared.(options := UpdateLogs(cleared.options, UsedKey, LogArray([]))) else cleared;
      var d := c2.options.defaults;
      PublishKeepsLogBound(c2, host, input.remote, d.summary, d.photo, d.link, None);
      if c.Listing? && input.post.Some? {
        var dr := ComposeDraft(c2.options.defaults, input.post.value);
        PublishKeepsLogBound(c2, host, input.remote, dr.summary, dr.photoUrl, dr.pageUrl, Some(IntId(c.id)));
      }
    }
  }
}
