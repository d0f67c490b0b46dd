/*
 * `wpl_update_gmb_preferences`: the Ajax handler that saves the posting
 * frequency (re-arming the posting event), the auto-post switch, the default
 * link, photo and summary with their override switches, and the per-location
 * share flags.
 */
module GmbPreferences {
  import opened Wrappers
  import opened PhpValues
  import opened GmbOptions
  import opened GmbLocations
  import opened GmbSchedule
  import opened GmbPublish

  /** The submitted form, each field absent when not posted. */
  datatype PreferencesForm = PreferencesForm(
    frequency: Option<string>,
    emptyScheduleAutoPost: Option<string>,
    link: Option<string>,
    photo: Option<string>,
    summary: Option<string>,
    linkOverride: Option<string>,
    photoOverride: Option<string>,
    summaryOverride: Option<string>,
    locations: seq<FlagEntry>)

  /** A posted text field replaces the saved one; an absent one keeps it. */
  function Posted(field: Option<string>, saved: string): (r: string)
    ensures field.Some? ==> r == field.value
    ensures field.None? ==> r == saved
  {
    field.GetOr(saved)
  }

  /** The handler body after its permission, nonce and presence checks,
      with `now` the time the event is re-armed from. */
  function SavePreferences(st: State, form: PreferencesForm, now: int): (r: State)
    ensures r.options.accessToken == st.options.accessToken && r.options.refreshToken == st.options.refreshToken
    ensures r.options.logs == st.options.logs
    ensures r.options.posting.scheduledPosts == st.options.posting.scheduledPosts
    ensures r.options.posting.excludedPosts == st.options.posting.excludedPosts
    ensures TruthyField(form.frequency) ==> r.options.posting.frequency == form.frequency.value
    ensures !TruthyField(form.frequency) ==> r.options.posting.frequency == st.options.posting.frequency && r.timer == st.timer
    ensures r.options.posting.emptyScheduleAutoPost <==> TruthyField(form.emptyScheduleAutoPost)
    ensures r.options.defaults.linkOverride <==> TruthyField(form.linkOverride)
    ensures r.options.defaults.photoOverride <==> TruthyField(form.photoOverride)
    ensures r.options.defaults.summaryOverride <==> TruthyField(form.summaryOverride)
    ensures form.link.None? ==> r.options.defaults.link == st.options.defaults.link
    ensures form.photo.None? ==> r.options.defaults.photo == st.options.defaults.photo
    ensures form.summary.None? ==> r.options.defaults.summary == st.options.defaults.summary
    ensures form.link.Some? ==> r.options.defaults.link == form.link.value
    ensures form.photo.Some? ==> r.options.defaults.photo == form.photo.value
    ensures form.summary.Some? ==> r.options.defaults.summary == form.summary.value
    ensures TruthyField(form.frequency) ==> r.timer == UpdateInterval(st.timer, form.frequency.value, now)
    ensures r.options.locations == ApplyShareFlags(st.options.locations, form.locations)
    ensures ValidTimer(st.timer) ==> ValidTimer(r.timer)
  {
    var s := st.options;
    var freqSet := TruthyField(form.frequency);
    var frequency := if freqSet then form.frequency.value else s.posting.frequency;
    var timer := if freqSet then UpdateInterval(st.timer, frequency, now) else st.timer;
    var posting := s.posting.(frequency := frequency, emptyScheduleAutoPost := TruthyField(form.emptyScheduleAutoPost));
    var defaults := s.defaults.(
      link := Posted(form.link, s.defaults.link),
      photo := Posted(form.photo, s.defaults.photo),
      summary := Posted(form.summary, s.defaults.summary),
      linkOverride := TruthyField(form.linkOverride),
      photoOverride := TruthyField(form.photoOverride),
      summaryOverride := TruthyField(form.summaryOverride));
    State(s.(posting := posting, defaults := defaults, locations := ApplyShareFlags(s.locations, form.locations)), timer)
  }

  /** A submitted frequency re-arms the event: a form frequency moves the
      current event to that recurrence at its current time; with no current
      event nothing is armed. */
  lemma FrequencyRearmsEvent(st: State, form: PreferencesForm, now: int)
    requires TruthyField(form.frequency) && PluginFrequency(form.frequency.value)
    ensures var r := SavePreferences(st, form, now);
            (st.timer.Armed? && st.timer.at > 0 ==> r.timer == Armed(st.timer.at, form.frequency.value)) &&
            (st.timer.Unscheduled? ==> r.timer == Unscheduled)
  {
  }

  /** Saving the same frequency twice re-arms once: the second save leaves
      the event as the first left it. */
  lemma FrequencySettles(st: State, form: PreferencesForm, now: int)
    ensures var once := SavePreferences(st, form, now);
            SavePreferences(once, form, now).timer == once.timer
  {
  }

  /** Locations the form does not mention keep their entries. */
  lemma UnmentionedLocationsKept(st: State, form: PreferencesForm, now: int, key: string)
    requires !InForm(form.locations, key)
    ensures Lookup(SavePreferences(st, form, now).options.locations, key) == Lookup(st.options.locations, key)
  {
    ApplyShareFlagsKeepsOthers(st.options.locations, form.locations, key);
  }

  /** Each location row of the form decides its share flag: on exactly when
      the location was saved before and a non-empty number was posted. */
  lemma LocationRowDecidesShare(st: State, form: PreferencesForm, now: int, i: nat)
    requires UniqueFormKeys(form.locations) && i < |form.locations|
    ensures var e := form.locations[i];
            var l := Lookup(SavePreferences(st, form, now).options.locations, e.key);
            l.Some? && (l.value.share <==> HasKey(st.options.locations, e.key) && ShareRequested(e))
  {
    ApplyShareFlagsSetsRow(st.options.locations, form.locations, i);
  }
}
