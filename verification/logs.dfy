/*
 * `wpl_gmb_update_logs` and the two log helpers. The used-post log is a
 * bounded first-in first-out list of at most fifty ids; pushing an array
 * clears it.
 */
module GmbLogs {
  import opened Wrappers
  import opened PhpValues
  import opened GmbOptions

  const MaxUsedPostIds: nat := 50

  const StatusKey := "last_post_status_message"
  const UsedKey := "used_post_ids"
  const TimestampKey := "last_post_timestamp"

  /** The value handed to the log updater, by PHP type. */
  datatype LogValue = LogString(s: string) | LogInt(n: int) | LogArray(items: seq<PostId>)

  /** What a post id becomes when handed to the log updater. */
  function IdAsLogValue(id: PostId): LogValue {
    match id
    case IntId(n) => LogInt(n)
    case StrId(s) => LogString(s)
  }

  /** `array_push` of `n` followed by one `array_shift` when the list then
      holds more than fifty ids. */
  function PushUsed(used: seq<PostId>, n: int): (r: seq<PostId>)
    ensures |used| < MaxUsedPostIds ==> |r| == |used| + 1
    ensures |used| >= MaxUsedPostIds ==> |r| == |used|
    ensures |r| > 0 && r[|r| - 1] == IntId(n)
    ensures r == (used + [IntId(n)])[|used| + 1 - |r|..]
  {
    var pushed := used + [IntId(n)];
    if |pushed| > MaxUsedPostIds then pushed[1..] else pushed
  }

  /** The last `k` elements of `xs` (all of them when there are fewer). */
  function LastN<T>(xs: seq<T>, k: nat): (r: seq<T>)
    ensures |r| == if |xs| <= k then |xs| else k
  {
    if |xs| <= k then xs else xs[|xs| - k..]
  }

  /** The integers `ns` as post ids, in order. */
  function AsIds(ns: seq<int>): (ids: seq<PostId>)
    ensures |ids| == |ns|
  {
    if |ns| == 0 then [] else [IntId(ns[0])] + AsIds(ns[1..])
  }

  /** Pushing the ids `ns` one after another. */
  function PushAll(used: seq<PostId>, ns: seq<int>): seq<PostId>
    decreases |ns|
  {
    if |ns| == 0 then used else PushAll(PushUsed(used, ns[0]), ns[1..])
  }

  /** Dropping the oldest element of a list longer than `k` does not change
      its last `k`. */
  lemma LastNDropsOldest<T>(xs: seq<T>, k: nat)
    requires |xs| > k
    ensures LastN(xs[1..], k) == LastN(xs, k)
  {
    assert xs[1..][|xs| - 1 - k..] == xs[|xs| - k..];
  }

  /** One push, followed by any further ids, keeps the same newest fifty
      as keeping everything would. */
  lemma PushStep(used: seq<PostId>, n: int, rest: seq<PostId>)
    requires |used| <= MaxUsedPostIds
    ensures LastN(PushUsed(used, n) + rest, MaxUsedPostIds) == LastN((used + [IntId(n)]) + rest, MaxUsedPostIds)
  {
    var pushed := used + [IntId(n)];
    if |pushed| > MaxUsedPostIds {
      assert PushUsed(used, n) == pushed[1..];
      assert pushed[1..] + rest == (pushed + rest)[1..];
      LastNDropsOldest(pushed + rest, MaxUsedPostIds);
    } else {
      assert PushUsed(used, n) == pushed;
    }
  }

  /** A log of at most fifty ids stays that way under a push and keeps the
      newest ids in arrival order: it is the last fifty of everything ever
      pushed. */
  lemma {:induction false} PushAllKeepsNewestFifty(used: seq<PostId>, ns: seq<int>)
    requires |used| <= MaxUsedPostIds
    ensures PushAll(used, ns) == LastN(used + AsIds(ns), MaxUsedPostIds)
    decreases |ns|
  {
    if |ns| > 0 {
      var next := PushUsed(used, ns[0]);
      var rest := AsIds(ns[1..]);
      var all := (used + [IntId(ns[0])]) + rest;
      assert all == used + AsIds(ns);
      PushAllKeepsNewestFifty(next, ns[1..]);
      PushStep(used, ns[0], rest);
    }
  }

  /** `wpl_gmb_update_logs`: the status message and the timestamp accept
      strings, the used list accepts an integer (pushed) or an array
      (clears it); every other combination writes the record back unchanged. */
  function UpdateLogs(s: Settings, key: string, v: LogValue): (r: Settings)
    ensures r.(logs := s.logs) == s
    ensures key == StatusKey && v.LogString? ==> r.logs == s.logs.(statusMessage := v.s)
    ensures key == TimestampKey && v.LogString? ==> r.logs == s.logs.(lastPostTimestamp := v.s)
    ensures key == UsedKey && v.LogInt? ==> r.logs == s.logs.(usedPostIds := PushUsed(s.logs.usedPostIds, v.n))
    ensures key == UsedKey && v.LogArray? ==> r.logs == s.logs.(usedPostIds := [])
    ensures key == UsedKey && v.LogString? ==> r == s
    ensures key != StatusKey && key != UsedKey && key != TimestampKey ==> r == s
  {
    var l := s.logs;
    var l1 := if key == StatusKey && v.LogString? then l.(statusMessage := v.s) else l;
    var l2 := if key == UsedKey && v.LogInt? then l1.(usedPostIds := PushUsed(l1.usedPostIds, v.n)) else l1;
    var l3 := if key == UsedKey && v.LogArray? then l2.(usedPostIds := []) else l2;
    var l4 := if key == TimestampKey && v.LogString? then l3.(lastPostTimestamp := v.s) else l3;
    s.(logs := l4)
  }

  /** Sets the last status message. */
  function Log(s: Settings, message: string): (r: Settings)
    ensures r.logs.statusMessage == message
    ensures r.(logs := s.logs.(statusMessage := message)) == r
    ensures r.(logs := s.logs) == s
  {
    UpdateLogs(s, StatusKey, LogString(message))
  }

  /** No call of the log updater lets the used list outgrow fifty ids. */
  lemma UpdateLogsKeepsBound(s: Settings, key: string, v: LogValue)
    requires |s.logs.usedPostIds| <= MaxUsedPostIds
    ensures |UpdateLogs(s, key, v).logs.usedPostIds| <= MaxUsedPostIds
  {
  }

  /** A post id that arrives as a string is never logged as used, while the
      same id as an integer is. */
  lemma StringIdsNeverLogged(s: Settings, n: int)
    ensures UpdateLogs(s, UsedKey, IdAsLogValue(StrId(IntToString(n)))) == s
    ensures UpdateLogs(s, UsedKey, IdAsLogValue(IntId(n))).logs.usedPostIds
            == PushUsed(s.logs.usedPostIds, n)
  {
  }

  /** The stored status message, read from a record that may be missing;
      empty when there is none. */
  function StatusOf(option: Option<Settings>): (m: string)
    ensures option.None? ==> m == ""
    ensures option.Some? ==> m == option.value.logs.statusMessage
  {
    if option.Some? && option.value.logs.statusMessage != "" then option.value.logs.statusMessage else ""
  }

  /** `wpl_gmb_get_error_log`: it loads the options but reads an undefined
      variable, so it reads nothing. */
  function GetErrorLog(s: Settings): string {
    StatusOf(None)
  }

  /** The error-log helper returns the empty string even when a status is
      stored; reading the loaded record instead would return it. */
  lemma {:induction false} ErrorLogIsAlwaysEmpty(s: Settings)
    ensures GetErrorLog(s) == ""
    ensures StatusOf(Some(s)) == s.logs.statusMessage
  {
  }

  /** What the pop helper hands back. */
  datatype Popped = NothingPopped | PoppedId(id: PostId)

  /** Pops the newest id from the used list of a record that may be missing. */
  function PopFrom(option: Option<Settings>): (r: (Option<Settings>, Popped))
    ensures option.Some? && |option.value.logs.usedPostIds| > 0 ==>
              r.1 == PoppedId(option.value.logs.usedPostIds[|option.value.logs.usedPostIds| - 1])
    ensures option.None? ==> r == (None, NothingPopped)
  {
    if option.Some? && |option.value.logs.usedPostIds| > 0 then
      var used := option.value.logs.usedPostIds;
      (Some(option.value.(logs := option.value.logs.(usedPostIds := used[..|used| - 1]))),
       PoppedId(used[|used| - 1]))
    else (option, NothingPopped)
  }

  /** `wpl_gmb_pop_last_shared_post_id`: like the error-log helper it reads
      an undefined variable, so nothing is popped and the record it writes
      back is the one it loaded. */
  function PopLastSharedPostId(s: Settings): (Settings, Popped) {
    var popped := PopFrom(None);
    (s, popped.1)
  }

  /** The pop helper never pops and never changes the used list, whatever
      the log holds. */
  lemma PopNeverPops(s: Settings)
    ensures PopLastSharedPostId(s) == (s, NothingPopped)
  {
  }
}
