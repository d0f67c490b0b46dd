/*
 * The single recurring `wp_listings_gmb_auto_post` event: the recurrences
 * the plugin registers, how a change of posting frequency re-arms the event,
 * and the reset to the next regular time or to a retry twelve hours out.
 *
 * The event is the abstract pair (fire time, recurrence). Arming goes through
 * WordPress's `wp_schedule_event`, which refuses a missing or non-positive
 * time and a recurrence it has not registered; the model keeps those two
 * refusals and nothing else of WordPress's cron.
 */
module GmbSchedule {
  import opened Wrappers

  datatype Timer = Unscheduled | Armed(at: int, interval: string)

  const HourInSeconds: int := 3600
  const DayInSeconds: int := 86400
  const WeekInSeconds: int := 604800
  const MonthInSeconds: int := 30 * DayInSeconds
  const RetryDelay: int := 12 * HourInSeconds

  /** The recurrences WordPress registers by itself. */
  const CoreSchedules: map<string, int> :=
    map["hourly" := HourInSeconds, "twicedaily" := 12 * HourInSeconds,
        "daily" := DayInSeconds, "weekly" := WeekInSeconds]

  /** `wpl_gmb_event_schedules`: adds weekly, every-two-weeks and monthly
      recurrences, each only when no recurrence of that name exists yet.
      `Schedules` below applies it to the core recurrences. WordPress itself
      runs the `cron_schedules` filter on an empty array and merges its core
      recurrences over the result; the two orders give the same map, because
      the only shared name, "weekly", has the same length either way. */
  function WithPluginSchedules(schedules: map<string, int>): (r: map<string, int>)
    ensures r.Keys == schedules.Keys + {"weekly", "biweekly", "monthly"}
    ensures forall k :: k in schedules ==> r[k] == schedules[k]
    ensures "weekly" !in schedules ==> r["weekly"] == WeekInSeconds
    ensures "biweekly" !in schedules ==> r["biweekly"] == 2 * WeekInSeconds
    ensures "monthly" !in schedules ==> r["monthly"] == MonthInSeconds
  {
    var s1 := if "weekly" in schedules then schedules else schedules["weekly" := WeekInSeconds];
    var s2 := if "biweekly" in s1 then s1 else s1["biweekly" := 2 * WeekInSeconds];
    if "monthly" in s2 then s2 else s2["monthly" := MonthInSeconds]
  }

  /** Every recurrence known once the plugin's filter has run. */
  const Schedules: map<string, int> := WithPluginSchedules(CoreSchedules)

  /** WordPress's own order, the filter on an empty array with the core
      recurrences merged over it, yields the same recurrences. */
  lemma FilterOrderAgrees()
    ensures WithPluginSchedules(map[]) + CoreSchedules == Schedules
  {
  }

  /** The frequencies the preferences form offers. */
  predicate PluginFrequency(interval: string) {
    interval == "weekly" || interval == "biweekly" || interval == "monthly"
  }

  lemma ScheduleLengths()
    ensures Schedules.Keys == {"hourly", "twicedaily", "daily", "weekly", "biweekly", "monthly"}
    ensures Schedules["weekly"] == 604800 && Schedules["biweekly"] == 1209600
    ensures Schedules["monthly"] == 2592000
  {
  }

  /** `wp_schedule_event`: arms the event unless the time is missing or not
      positive, or the recurrence is unknown. */
  function ScheduleEvent(at: Option<int>, recurrence: string): (t: Timer)
    ensures t.Armed? <==> at.Some? && at.value > 0 && recurrence in Schedules
    ensures t.Armed? ==> t.at == at.value && t.interval == recurrence
  {
    if at.Some? && at.value > 0 && recurrence in Schedules then Armed(at.value, recurrence) else Unscheduled
  }

  /** What every event the plugin arms satisfies. */
  predicate ValidTimer(t: Timer) {
    t.Armed? ==> t.at > 0 && t.interval in Schedules
  }

  /** `wpl_gmb_update_scheduled_posting_interval`. The same recurrence is a
      no-op. A form frequency keeps the current fire time, so with no
      current event there is no time to keep and nothing is armed. Any other
      value arms a weekly event one week from `now`. */
  function UpdateInterval(timer: Timer, interval: string, now: int): (r: Timer)
    ensures timer.Armed? && interval == timer.interval ==> r == timer
    ensures timer.Armed? && interval != timer.interval && PluginFrequency(interval) && timer.at > 0 ==>
              r == Armed(timer.at, interval)
    ensures timer.Unscheduled? && PluginFrequency(interval) ==> r == Unscheduled
    ensures !(timer.Armed? && interval == timer.interval) && !PluginFrequency(interval) && now + WeekInSeconds > 0 ==>
              r == Armed(now + WeekInSeconds, "weekly")
    ensures ValidTimer(timer) ==> ValidTimer(r)
  {
    if timer.Armed? && interval == timer.interval then timer
    else if PluginFrequency(interval) then
      ScheduleEvent(if timer.Armed? then Some(timer.at) else None, interval)
    else ScheduleEvent(Some(now + WeekInSeconds), "weekly")
  }

  /** `wpl_reset_next_scheduled_post_time`: the event is cleared, then armed
      twelve hours from `now` for a retry, or one period of the posting
      frequency from `now` otherwise, recurring at that frequency. An
      unknown frequency leaves nothing armed. */
  function ResetNext(frequency: string, retry: bool, now: int): (r: Timer)
    ensures r.Armed? ==> r.interval == frequency && frequency in Schedules
    ensures retry && frequency in Schedules && now + RetryDelay > 0 ==> r == Armed(now + RetryDelay, frequency)
    ensures !retry && frequency in Schedules && now + Schedules[frequency] > 0 ==>
              r == Armed(now + Schedules[frequency], frequency)
    ensures frequency !in Schedules ==> r == Unscheduled
    ensures ValidTimer(r)
  {
    if retry then ScheduleEvent(Some(now + RetryDelay), frequency)
    else
      var period := if frequency in Schedules then Schedules[frequency] else 0;
      ScheduleEvent(Some(now + period), frequency)
  }

  /** `wpl_schedule_posting_event`, run after signing in to Google: an armed
      event is left alone; otherwise a weekly event is armed to fire twelve
      hours from `now`. */
  function ScheduleFirstPost(timer: Timer, now: int): (r: Timer)
    ensures timer.Armed? ==> r == timer
    ensures timer.Unscheduled? && now + RetryDelay > 0 ==> r == Armed(now + RetryDelay, "weekly")
    ensures ValidTimer(timer) ==> ValidTimer(r)
  {
    if timer.Armed? then timer else ScheduleEvent(Some(now + 12 * HourInSeconds), "weekly")
  }

  /** For every frequency the form offers, a retry fires before the next
      regular post would have. */
  lemma RetryComesFirst(frequency: string, now: int)
    requires PluginFrequency(frequency) && now > 0
    ensures ResetNext(frequency, true, now).Armed? && ResetNext(frequency, false, now).Armed?
    ensures ResetNext(frequency, true, now).at < ResetNext(frequency, false, now).at
  {
  }
}
