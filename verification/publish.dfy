/*
 * `publish_post_to_gmb`: validation of the three values, the location
 * merge, the token check, the single dispatch to the first shared location
 * and the classification of Google's answer into a status message, a log
 * update and a schedule decision.
 */
module GmbPublish {
  import opened Wrappers
  import opened PhpValues
  import opened GmbOptions
  import opened GmbLogs
  import opened GmbLocations
  import opened GmbSchedule

  /** Everything one posting cycle changes: the settings record and the
      auto-post event. */
  datatype State = State(options: Settings, timer: Timer)

  /** WordPress helpers whose behaviour is not modelled: `strip_tags` and
      `wp_http_validate_url` (which yields "" for a URL it rejects). */
  datatype Host = Host(stripTags: string -> string, validateUrl: string -> string)

  /** Google's answer to the one POST made: a transport failure, or an
      HTTP status with the error message of the JSON body, if any. */
  datatype Response = TransportError | HttpResponse(code: int, errorMessage: Option<string>)

  /** What one posting attempt learns from outside: the locations fetched
      from Google, whether an access token is available, the answer to the
      POST, and the current time. */
  datatype Remote = Remote(fetched: seq<Fetched>, tokenAvailable: bool, response: Response, now: int)

  /** The local post sent: the location it went to and its three values. */
  datatype LocalPost = LocalPost(location: string, summary: string, pageUrl: string, photoUrl: string)

  /** The state after an attempt, and the post sent, if one was. */
  datatype Attempt = Attempt(state: State, sent: Option<LocalPost>)

  const MaxSummaryLength: nat := 1499

  const FinalCheckFailed := "Final check before posting failed, verify both photo and page URL links work and that a summary is included."
  const NoLocationsAvailable := "No posting locations available."
  const TokenMissing := "Failed - Required token missing."
  const PostSuccessful := "Post Successful"

  /** The opening every failure message shares. */
  const Unsuccessful := "Oops! Post Unsuccessful - "
  const InvalidUrls := Unsuccessful + "Invalid photo or page URL provided."
  const UnverifiedLocationError := "Creating/Updating a local post is not authorized for this location."
  const UnverifiedLocation := Unsuccessful + "Creating/Updating a local post is not authorized for this location. Check with Google on the status of verifying your business location."
  const ResponseCodePrefix := Unsuccessful + "Response code received from Google: "
  const TransportFailed := Unsuccessful + "WP_Error returned."
  const NoLocationsSelected := Unsuccessful + "No locations selected."

  /** " Post ID: <id>" when a non-empty id was given. */
  function PostIdSuffix(postId: Option<PostId>): string {
    if postId.Some? && Truthy(postId.value) then " Post ID: " + ToPhpString(postId.value) else ""
  }

  function LogState(st: State, message: string): (r: State)
    ensures r.timer == st.timer && r.options.logs.statusMessage == message
  {
    st.(options := Log(st.options, message))
  }

  /** `array_search( $id, $list, true )`: the first strictly equal position. */
  function StrictIndex(xs: seq<PostId>, id: PostId): (r: Option<nat>)
    ensures r.Some? ==> r.value < |xs| && xs[r.value] == id && forall j :: 0 <= j < r.value ==> xs[j] != id
    ensures r.None? ==> forall j :: 0 <= j < |xs| ==> xs[j] != id
  {
    if |xs| == 0 then None
    else if xs[0] == id then Some(0)
    else match StrictIndex(xs[1..], id)
      case Some(i) => Some(i + 1)
      case None => None
  }

  /** `array_splice( $list, $i, 1 )`. */
  function RemoveAt(xs: seq<PostId>, i: nat): (r: seq<PostId>)
    requires i < |xs|
    ensures |r| == |xs| - 1
    ensures forall j :: 0 <= j < i ==> r[j] == xs[j]
    ensures forall j :: i <= j < |r| ==> r[j] == xs[j + 1]
  {
    xs[..i] + xs[i + 1..]
  }

  /** A 200 answer. With a non-empty post id, the id goes through the log
      updater and its first strictly equal entry leaves the schedule. The
      schedule change is written from the record loaded before the log
      update, so when that entry exists the logged id is lost again. */
  function OnSuccess(snapshot: Settings, postId: Option<PostId>): (r: Settings)
    ensures r.logs.statusMessage == PostSuccessful
    ensures r.(logs := snapshot.logs, posting := snapshot.posting) == snapshot
    ensures r.logs.lastPostTimestamp == snapshot.logs.lastPostTimestamp
    ensures r.posting.(scheduledPosts := snapshot.posting.scheduledPosts) == snapshot.posting
    ensures var before := snapshot.posting.scheduledPosts;
            r.posting.scheduledPosts == before ||
            (postId.Some? && StrictIndex(before, postId.value).Some? &&
             r.posting.scheduledPosts == RemoveAt(before, StrictIndex(before, postId.value).value))
    ensures r.logs.usedPostIds == snapshot.logs.usedPostIds ||
            (postId.Some? && postId.value.IntId? && StrictIndex(snapshot.posting.scheduledPosts, postId.value).None? &&
             r.logs.usedPostIds == PushUsed(snapshot.logs.usedPostIds, postId.value.n))
    ensures var before := snapshot.posting.scheduledPosts;
            (postId.Some? && Truthy(postId.value) && StrictIndex(before, postId.value).Some? ==>
               r.posting.scheduledPosts == RemoveAt(before, StrictIndex(before, postId.value).value) &&
               r.logs.usedPostIds == snapshot.logs.usedPostIds)
    ensures var before := snapshot.posting.scheduledPosts;
            (postId.Some? && Truthy(postId.value) && postId.value.IntId? && StrictIndex(before, postId.value).None? ==>
               r.logs.usedPostIds == PushUsed(snapshot.logs.usedPostIds, postId.value.n) &&
               r.posting == snapshot.posting)
    ensures (postId.Some? && postId.value.StrId? && StrictIndex(snapshot.posting.scheduledPosts, postId.value).None? ==>
               r.logs.usedPostIds == snapshot.logs.usedPostIds && r.posting == snapshot.posting)
    ensures (!(postId.Some? && Truthy(postId.value)) ==>
               r.logs.usedPostIds == snapshot.logs.usedPostIds && r.posting == snapshot.posting)
  {
    if postId.Some? && Truthy(postId.value) then
      var logged := UpdateLogs(snapshot, UsedKey, IdAsLogValue(postId.value));
      var scheduled := snapshot.posting.scheduledPosts;
      var written := match StrictIndex(scheduled, postId.value)
        case Some(i) => snapshot.(posting := snapshot.posting.(scheduledPosts := RemoveAt(scheduled, i)))
        case None => logged;
      Log(written, PostSuccessful)
    else Log(snapshot, PostSuccessful)
  }

  /** The message for a non-200 answer. */
  function FailureMessage(code: int, errorMessage: Option<string>, postId: Option<PostId>): (m: string)
    ensures Unsuccessful <= m
    ensures |PostIdSuffix(postId)| <= |m| && m[|m| - |PostIdSuffix(postId)|..] == PostIdSuffix(postId)
  {
    var opening :=
      if code == 400 then InvalidUrls
      else if code == 403 && errorMessage == Some(UnverifiedLocationError) then UnverifiedLocation
      else ResponseCodePrefix + IntToString(code) + ".";
    opening + PostIdSuffix(postId)
  }

  /** The answer for the first shared location decides the outcome. */
  function Classify(st: State, response: Response, now: int, postId: Option<PostId>): (r: State)
    ensures r.options.logs.statusMessage == PostSuccessful <==> response.HttpResponse? && response.code == 200
    ensures r.options.(logs := st.options.logs, posting := st.options.posting) == st.options
    ensures r.options.posting.(scheduledPosts := st.options.posting.scheduledPosts) == st.options.posting
    ensures |r.options.posting.scheduledPosts| <= |st.options.posting.scheduledPosts|
    ensures r.timer != st.timer ==> response.HttpResponse? && response.code != 200
    ensures r.options.posting != st.options.posting || r.options.logs.usedPostIds != st.options.logs.usedPostIds ==>
              response.HttpResponse? && response.code == 200 && postId.Some?
  {
    match response
    case TransportError => LogState(st, TransportFailed)
    case HttpResponse(code, errorMessage) =>
      if code == 200 then st.(options := OnSuccess(st.options, postId))
      else
        var retry := st.(timer := ResetNext(st.options.posting.frequency, true, now));
        LogState(retry, FailureMessage(code, errorMessage, postId))
  }

  /** The summary as sent: tags stripped, cut to 1499 characters. */
  function SummaryText(host: Host, summary: string): (r: string)
    ensures |r| <= MaxSummaryLength
  {
    Truncate(host.stripTags(summary), MaxSummaryLength)
  }

  /** `publish_post_to_gmb`. */
  function Publish(st: State, host: Host, remote: Remote, summary: string, photoUrl: string, pageUrl: string,
                   postId: Option<PostId>): (r: Attempt)
    ensures r.sent.Some? ==> |r.sent.value.summary| <= MaxSummaryLength
    ensures r.sent.Some? ==> !EmptyString(r.sent.value.summary) && !EmptyString(r.sent.value.pageUrl)
                             && !EmptyString(r.sent.value.photoUrl)
    ensures r.sent.Some? ==> r.sent.value.summary == SummaryText(host, summary)
                             && r.sent.value.photoUrl == host.validateUrl(photoUrl)
                             && r.sent.value.pageUrl == host.validateUrl(pageUrl)
    ensures r.state.options.posting.(scheduledPosts := st.options.posting.scheduledPosts) == st.options.posting
    ensures |r.state.options.posting.scheduledPosts| <= |st.options.posting.scheduledPosts|
    ensures postId.None? ==> r.state.options.logs.usedPostIds == st.options.logs.usedPostIds &&
                             r.state.options.posting == st.options.posting
  {
    var text := SummaryText(host, summary);
    var photo := host.validateUrl(photoUrl);
    var page := host.validateUrl(pageUrl);
    if EmptyString(photo) || EmptyString(page) || EmptyString(text) then
      Attempt(LogState(st, FinalCheckFailed), None)
    else match SavedLocations(st.options.locations, remote.fetched)
      case None => Attempt(LogState(st, NoLocationsAvailable), None)
      case Some(locs) =>
        var merged := st.(options := st.options.(locations := locs));
        if !remote.tokenAvailable then Attempt(LogState(merged, TokenMissing), None)
        else match FirstShared(locs)
          case None => Attempt(LogState(merged, NoLocationsSelected), None)
          case Some(key) =>
            Attempt(Classify(merged, remote.response, remote.now, postId), Some(LocalPost(key, text, page, photo)))
  }

  /** The settings record once the location merge has been written. */
  function MergedState(st: State, remote: Remote): State
    requires |remote.fetched| > 0
  {
    st.(options := st.options.(locations := SavedLocations(st.options.locations, remote.fetched).value))
  }

  /** Final check: when any of the three values is empty after validation,
      only the final-check message is logged and nothing is sent. */
  lemma FinalCheckStopsEverything(st: State, host: Host, remote: Remote, summary: string, photoUrl: string,
                                  pageUrl: string, postId: Option<PostId>)
    requires EmptyString(SummaryText(host, summary)) || EmptyString(host.validateUrl(photoUrl))
             || EmptyString(host.validateUrl(pageUrl))
    ensures var r := Publish(st, host, remote, summary, photoUrl, pageUrl, postId);
            r.sent.None? && r.state == LogState(st, FinalCheckFailed)
  {
  }

  /** Predicate for the three values passing the final check. */
  predicate PassesFinalCheck(host: Host, summary: string, photoUrl: string, pageUrl: string) {
    !EmptyString(SummaryText(host, summary)) && !EmptyString(host.validateUrl(photoUrl))
    && !EmptyString(host.validateUrl(pageUrl))
  }

  /** Only the first location with sharing on is posted to, and its answer
      alone decides the outcome. With none shared, nothing is sent and the
      "No locations selected" message is logged. */
  lemma OnlyFirstSharedLocation(st: State, host: Host, remote: Remote, summary: string, photoUrl: string,
                                pageUrl: string, postId: Option<PostId>)
    requires PassesFinalCheck(host, summary, photoUrl, pageUrl)
    requires |remote.fetched| > 0 && remote.tokenAvailable
    ensures var r := Publish(st, host, remote, summary, photoUrl, pageUrl, postId);
            var merged := MergedState(st, remote);
            match FirstShared(merged.options.locations)
            case None => r.sent.None? && r.state == LogState(merged, NoLocationsSelected)
            case Some(key) => r.sent.Some? && r.sent.value.location == key &&
                              r.state == Classify(merged, remote.response, remote.now, postId)
  {
  }

  /** Without fetched locations, or without a token, nothing is sent. */
  lemma NoLocationsOrTokenNothingSent(st: State, host: Host, remote: Remote, summary: string, photoUrl: string,
                                      pageUrl: string, postId: Option<PostId>)
    requires PassesFinalCheck(host, summary, photoUrl, pageUrl)
    ensures var r := Publish(st, host, remote, summary, photoUrl, pageUrl, postId);
            (|remote.fetched| == 0 ==> r.sent.None? && r.state == LogState(st, NoLocationsAvailable)) &&
            (|remote.fetched| > 0 && !remote.tokenAvailable ==>
               r.sent.None? && r.state == LogState(MergedState(st, remote), TokenMissing))
  {
  }

  /** A 200 answer: the status becomes "Post Successful" and the event is
      untouched. An integer id that is not scheduled is pushed through the
      bounded log; a scheduled id loses its first strictly equal schedule
      entry, everything else kept in order, and the log is left as loaded;
      a string id is never logged. */
  lemma SuccessPath(st: State, postId: PostId, now: int)
    requires Truthy(postId)
    ensures var r := Classify(st, HttpResponse(200, None), now, Some(postId));
            var before := st.options.posting.scheduledPosts;
            && r.timer == st.timer
            && r.options.logs.statusMessage == PostSuccessful
            && r.options.locations == st.options.locations
            && (StrictIndex(before, postId).None? && postId.IntId? ==>
                  r.options.logs.usedPostIds == PushUsed(st.options.logs.usedPostIds, postId.n)
                  && r.options.posting == st.options.posting)
            && (StrictIndex(before, postId).Some? ==>
                  var i := StrictIndex(before, postId).value;
                  r.options.logs.usedPostIds == st.options.logs.usedPostIds
                  && r.options.posting.scheduledPosts == before[..i] + before[i + 1..]
                  && r.options.posting.(scheduledPosts := before) == st.options.posting)
            && (postId.StrId? ==> r.options.logs.usedPostIds == st.options.logs.usedPostIds)
  {
  }

  /** The lost update: an integer id that is also scheduled leaves the
      schedule, but the used-post log does not record it. */
  lemma ScheduledIntIdNotLogged(st: State, now: int)
    requires st.options.posting.scheduledPosts == [IntId(7), StrId("8")]
    requires st.options.logs.usedPostIds == []
    ensures var r := Classify(st, HttpResponse(200, None), now, Some(IntId(7)));
            r.options.posting.scheduledPosts == [StrId("8")] && r.options.logs.usedPostIds == []
  {
    assert StrictIndex(st.options.posting.scheduledPosts, IntId(7)) == Some(0);
  }

  /** Strict search: an integer id does not remove its string twin from
      the schedule, although the two are loosely equal. */
  lemma StrictSearchMissesStringTwin(st: State, now: int)
    requires st.options.posting.scheduledPosts == [StrId("7")]
    requires st.options.logs.usedPostIds == []
    ensures LooseEq(IntId(7), StrId("7"))
    ensures var r := Classify(st, HttpResponse(200, None), now, Some(IntId(7)));
            r.options.posting.scheduledPosts == [StrId("7")] && r.options.logs.usedPostIds == [IntId(7)]
  {
    LooseEqIntAndItsString(7);
  }

  /** A non-200 answer re-arms the event twelve hours out at the posting
      frequency and logs a message chosen by the code; nothing is logged as
      used and the schedule is kept. A transport failure only logs. */
  lemma FailurePath(st: State, response: Response, now: int, postId: Option<PostId>)
    requires response.TransportError? || response.code != 200
    ensures var r := Classify(st, response, now, postId);
            && r.options.logs.usedPostIds == st.options.logs.usedPostIds
            && r.options.posting == st.options.posting
            && (response.TransportError? ==> r.timer == st.timer && r.options.logs.statusMessage == TransportFailed)
            && (response.HttpResponse? ==>
                  r.timer == ResetNext(st.options.posting.frequency, true, now)
                  && r.options.logs.statusMessage == FailureMessage(response.code, response.errorMessage, postId))
  {
  }

  /** The three failure messages: 400 names the URLs, 403 with Google's
      exact unverified-location text names verification, anything else
      (including a 403 with other text) quotes the code. */
  lemma FailureMessages(errorMessage: Option<string>, postId: Option<PostId>, code: int)
    requires code != 400 && !(code == 403 && errorMessage == Some(UnverifiedLocationError))
    ensures FailureMessage(400, errorMessage, postId) == InvalidUrls + PostIdSuffix(postId)
    ensures FailureMessage(403, Some(UnverifiedLocationError), postId) == UnverifiedLocation + PostIdSuffix(postId)
    ensures FailureMessage(code, errorMessage, postId) == ResponseCodePrefix + IntToString(code) + "." + PostIdSuffix(postId)
  {
  }

  lemma SuffixOfTwelve()
    ensures PostIdSuffix(Some(IntId(12))) == " Post ID: 12"
  {
    assert NatToString(12) == NatToString(1) + [DigitChar(2)];
    assert IntToString(12) == "12";
  }

  /** The message for a 400 answer to listing 12, in full. */
  lemma InvalidUrlMessageExample()
    ensures FailureMessage(400, None, Some(IntId(12))) ==
            "Oops! Post Unsuccessful - " + "Invalid photo or page URL provided." + " Post ID: 12"
  {
    SuffixOfTwelve();
  }

  /** Classifying an answer keeps the used-post log within fifty ids and
      the exclusion list as it was. */
  lemma ClassifyKeepsLogBound(st: State, response: Response, now: int, postId: Option<PostId>)
    requires |st.options.logs.usedPostIds| <= MaxUsedPostIds
    ensures var r := Classify(st, response, now, postId);
            |r.options.logs.usedPostIds| <= MaxUsedPostIds &&
            r.options.posting.excludedPosts == st.options.posting.excludedPosts
  {
    match response
    case TransportError =>
    case HttpResponse(code, _) =>
      if code == 200 {
        OnSuccessKeepsLogBound(st.options, postId);
      }
  }

  lemma OnSuccessKeepsLogBound(snapshot: Settings, postId: Option<PostId>)
    requires |snapshot.logs.usedPostIds| <= MaxUsedPostIds
    ensures var r := OnSuccess(snapshot, postId);
            |r.logs.usedPostIds| <= MaxUsedPostIds && r.posting.excludedPosts == snapshot.posting.excludedPosts
  {
    if postId.Some? && Truthy(postId.value) {
      var logged := UpdateLogs(snapshot, UsedKey, IdAsLogValue(postId.value));
      UpdateLogsKeepsBound(snapshot, UsedKey, IdAsLogValue(postId.value));
      var scheduled := snapshot.posting.scheduledPosts;
      var written := match StrictIndex(scheduled, postId.value)
        case Some(i) => snapshot.(posting := snapshot.posting.(scheduledPosts := RemoveAt(scheduled, i)))
        case None => logged;
      assert |written.logs.usedPostIds| <= MaxUsedPostIds;
      assert written.posting.excludedPosts == snapshot.posting.excludedPosts;
      assert OnSuccess(snapshot, postId) == Log(written, PostSuccessful);
    }
  }

  /** No attempt lets the used-post log outgrow fifty ids, and none changes
      the exclusion list. */
  lemma PublishKeepsLogBound(st: State, host: Host, remote: Remote, summary: string, photoUrl: string,
                             pageUrl: string, postId: Option<PostId>)
    requires |st.options.logs.usedPostIds| <= MaxUsedPostIds
    ensures var r := Publish(st, host, remote, summary, photoUrl, pageUrl, postId);
            |r.state.options.logs.usedPostIds| <= MaxUsedPostIds &&
            r.state.options.posting.excludedPosts == st.options.posting.excludedPosts
  {
    if PassesFinalCheck(host, summary, photoUrl, pageUrl) && |remote.fetched| > 0 && remote.tokenAvailable {
      var merged := MergedState(st, remote);
      if FirstShared(merged.options.locations).Some? {
        OnlyFirstSharedLocation(st, host, remote, summary, photoUrl, pageUrl, postId);
        ClassifyKeepsLogBound(merged, remote.response, remote.now, postId);
      }
    }
  }
}
